/**
 * `Multihost::buildUrl`: put the components of a parsed URL back together
 * with a different host. The parse itself is PHP's `parse_url`, which is not
 * modelled: its result is an input, `None` standing for its failure (`false`).
 */
module Url {
  import opened PhpValues

  /** The array `parse_url` returns; each component is present (`isset`) or not. */
  datatype UrlParts = UrlParts(
    scheme: Option<string>,
    user: Option<string>,
    pass: Option<string>,
    host: Option<string>,
    port: Option<nat>,
    path: Option<string>,
    query: Option<string>,
    fragment: Option<string>)

  // ---------------------------------------------------------------------------
  // Port numbers: `parse_url` gives the port as an int, which `.` concatenation
  // writes in decimal.
  // ---------------------------------------------------------------------------

  predicate IsDigits(s: string)
  {
    forall i :: 0 <= i < |s| ==> '0' <= s[i] <= '9'
  }

  function Digit(d: nat): (c: char)
    requires d < 10
    ensures '0' <= c <= '9' && c as int - '0' as int == d
  {
    ('0' as int + d) as char
  }

  /** PHP's int-to-string conversion of a non-negative number. */
  function Decimal(n: nat): (s: string)
    ensures |s| > 0 && IsDigits(s)
    ensures s[0] == '0' ==> n == 0
  {
    if n < 10 then [Digit(n)] else Decimal(n / 10) + [Digit(n % 10)]
  }

  /** The number a string of decimal digits denotes. */
  function DigitsValue(s: string): nat
    requires IsDigits(s)
  {
    if s == [] then 0
    else DigitsValue(s[..|s| - 1]) * 10 + (s[|s| - 1] as int - '0' as int)
  }

  /** Reading the decimal rendering of a port gives the port back. */
  lemma {:induction false} DecimalRoundTrip(n: nat)
    ensures DigitsValue(Decimal(n)) == n
  {
    var s := Decimal(n);
    if n >= 10 {
      assert s[..|s| - 1] == Decimal(n / 10);
      DecimalRoundTrip(n / 10);
    }
  }

  // ---------------------------------------------------------------------------
  // The rebuilt URL, as the source writes it
  // ---------------------------------------------------------------------------

  /**
   * `buildUrl($url, $host)`, with `parsed` the result of `parse_url($url)`:
   * when the parse fails the URL comes back unchanged; otherwise the present
   * components are appended in a fixed order, each with its separator, and the
   * host component (when present) is replaced by `host`.
   */
  function BuildUrl(url: string, parsed: Option<UrlParts>, host: string): (r: string)
    ensures parsed.None? ==> r == url
  {
    match parsed
    case None => url
    case Some(p) =>
      (if p.scheme.Some? then p.scheme.value + "://" else "")
      + (if p.user.Some? then p.user.value + ":" else "")
      + (if p.pass.Some? then p.pass.value + "@" else "")
      + (if p.host.Some? then host else "")
      + (if p.port.Some? then ":" + Decimal(p.port.value) else "")
      + (if p.path.Some? then p.path.value else "")
      + (if p.query.Some? then "?" + p.query.value else "")
      + (if p.fragment.Some? then "#" + p.fragment.value else "")
  }

  // ---------------------------------------------------------------------------
  // Reference: recomposing components the way section 5.3 of RFC 3986 does
  // ---------------------------------------------------------------------------

  /** scheme ":" */
  function SchemePart(p: UrlParts): string
  {
    if p.scheme.Some? then p.scheme.value + ":" else ""
  }

  /** The URL has an authority: a user, a password, a host or a port. */
  predicate HasAuthority(p: UrlParts)
  {
    p.user.Some? || p.pass.Some? || p.host.Some? || p.port.Some?
  }

  /** The "//" that introduces an authority. */
  function Slashes(p: UrlParts): string
  {
    if HasAuthority(p) then "//" else ""
  }

  /** userinfo "@", where userinfo is user [":" password]. */
  function UserInfoPart(p: UrlParts): string
  {
    if p.user.None? && p.pass.None? then ""
    else OrEmpty(p.user) + (if p.pass.Some? then ":" + p.pass.value else "") + "@"
  }

  function PortPart(p: UrlParts): string
  {
    if p.port.Some? then ":" + Decimal(p.port.value) else ""
  }

  /** "//" authority, where authority = [userinfo "@"] host [":" port]; nothing without an authority. */
  function AuthorityPart(p: UrlParts): string
  {
    if HasAuthority(p) then "//" + UserInfoPart(p) + OrEmpty(p.host) + PortPart(p) else ""
  }

  function QueryPart(p: UrlParts): string
  {
    if p.query.Some? then "?" + p.query.value else ""
  }

  function FragmentPart(p: UrlParts): string
  {
    if p.fragment.Some? then "#" + p.fragment.value else ""
  }

  /** The URL the components stand for. */
  function Assemble(p: UrlParts): string
  {
    SchemePart(p) + AuthorityPart(p) + OrEmpty(p.path) + QueryPart(p) + FragmentPart(p)
  }

  /** The components with the host replaced by `h`, if there was a host. */
  function WithHost(p: UrlParts, h: string): UrlParts
  {
    if p.host.Some? then p.(host := Some(h)) else p
  }

  lemma Regroup8(a: string, b: string, c: string, d: string, e: string, f: string, g: string, k: string)
    ensures a + b + c + d + e + f + g + k == a + (b + c) + (d + e + f + g + k)
  {
  }

  lemma Regroup10(a: string, s: string, b: string, c: string, x: string, d: string, e: string, f: string, g: string, k: string)
    ensures a + s + b + c + x + d + e + f + g + k == a + s + (b + c + x) + (d + e + f + g + k)
  {
  }

  lemma RegroupAuthority(a: string, s: string, u: string, d: string, e: string, f: string, g: string, k: string)
    ensures a + (s + u + d + e) + f + g + k == a + s + u + (d + e + f + g + k)
  {
  }

  lemma RegroupLast(a: string, b: string, d: string, e: string, f: string, g: string, k: string)
    ensures a + b + (d + e + f + g + k) == (a + b + d + e + f + g) + k
  {
  }

  /** Two strings with the same beginning and end are equal exactly when their middles are. */
  lemma SameMiddle(a: string, w: string, u: string, t: string)
    ensures a + w + t == a + u + t <==> w == u
  {
    if a + w + t == a + u + t {
      assert |w| == |u|;
      assert (a + w + t)[|a|..|a| + |w|] == w;
      assert (a + u + t)[|a|..|a| + |u|] == u;
    }
  }

  /** What the source writes for the scheme: scheme "://", whether or not an authority follows. */
  function WrittenScheme(p: UrlParts): string
  {
    if p.scheme.Some? then p.scheme.value + "://" else ""
  }

  /** The source's scheme prefix is the URL syntax's exactly when a scheme comes with an authority. */
  lemma WrittenSchemeCorrect(p: UrlParts)
    ensures WrittenScheme(p) == SchemePart(p) + Slashes(p) <==> (p.scheme.Some? == HasAuthority(p))
  {
    if p.scheme.Some? && !HasAuthority(p) {
      assert |WrittenScheme(p)| == |SchemePart(p) + Slashes(p)| + 2;
    } else if p.scheme.None? && HasAuthority(p) {
      assert |WrittenScheme(p)| + 2 == |SchemePart(p) + Slashes(p)|;
    }
  }

  /** What the source writes for user and password: user ":" then password "@". */
  function WrittenUserInfo(p: UrlParts): string
  {
    (if p.user.Some? then p.user.value + ":" else "")
    + (if p.pass.Some? then p.pass.value + "@" else "")
  }

  /** The source's userinfo is the URL syntax's exactly when user and password come together. */
  lemma WrittenUserInfoCorrect(p: UrlParts)
    ensures WrittenUserInfo(p) == UserInfoPart(p) <==> (p.user.Some? == p.pass.Some?)
    ensures |WrittenUserInfo(p)| <= |UserInfoPart(p)|
  {
    if p.user.Some? && p.pass.Some? {
      var u, w := p.user.value, p.pass.value;
      assert WrittenUserInfo(p) == (u + ":") + (w + "@");
      assert UserInfoPart(p) == u + (":" + w) + "@";
    } else if p.user.Some? {
      var u := p.user.value;
      assert WrittenUserInfo(p)[|u|] == ':';
      assert UserInfoPart(p)[|u|] == '@';
    } else if p.pass.Some? {
      assert |WrittenUserInfo(p)| < |UserInfoPart(p)|;
    }
  }

  /** Everything after the userinfo, with `h` as the host. */
  function AfterUserInfo(p: UrlParts, h: string): string
  {
    (if p.host.Some? then h else "") + PortPart(p) + OrEmpty(p.path) + QueryPart(p) + FragmentPart(p)
  }

  lemma BuildUrlShape(url: string, p: UrlParts, h: string)
    ensures BuildUrl(url, Some(p), h) == WrittenScheme(p) + WrittenUserInfo(p) + AfterUserInfo(p, h)
  {
    var a := WrittenScheme(p);
    var b := if p.user.Some? then p.user.value + ":" else "";
    var c := if p.pass.Some? then p.pass.value + "@" else "";
    var d := if p.host.Some? then h else "";
    var e, f, g, k := PortPart(p), OrEmpty(p.path), QueryPart(p), FragmentPart(p);
    assert BuildUrl(url, Some(p), h) == a + b + c + d + e + f + g + k;
    Regroup8(a, b, c, d, e, f, g, k);
  }

  lemma AssembleShape(p: UrlParts, h: string)
    ensures Assemble(WithHost(p, h)) == SchemePart(p) + Slashes(p) + UserInfoPart(p) + AfterUserInfo(p, h)
  {
    var q := WithHost(p, h);
    var a, s, u := SchemePart(p), Slashes(p), UserInfoPart(p);
    var d := if p.host.Some? then h else "";
    var e, f, g, k := PortPart(p), OrEmpty(p.path), QueryPart(p), FragmentPart(p);
    assert HasAuthority(q) == HasAuthority(p);
    assert UserInfoPart(q) == u && OrEmpty(q.host) == d;
    if HasAuthority(p) {
      assert Assemble(q) == a + (s + u + d + e) + f + g + k;
      RegroupAuthority(a, s, u, d, e, f, g, k);
    } else {
      assert s == "" && u == "" && d == "" && e == "";
      assert Assemble(q) == a + "" + f + g + k;
      assert AfterUserInfo(p, h) == f + g + k;
    }
  }

  /**
   * The rebuilt URL is the recomposition of the components with the new host
   * exactly when user and password are both present or both absent, and a
   * scheme comes exactly with an authority: otherwise the source's separators
   * come out wrong.
   */
  lemma BuildUrlMatchesAssemble(url: string, p: UrlParts, h: string)
    ensures BuildUrl(url, Some(p), h) == Assemble(WithHost(p, h))
        <==> (p.user.Some? == p.pass.Some? && p.scheme.Some? == HasAuthority(p))
  {
    BuildUrlShape(url, p, h);
    AssembleShape(p, h);
    var a1, w, t := WrittenScheme(p), WrittenUserInfo(p), AfterUserInfo(p, h);
    var a2, u := SchemePart(p) + Slashes(p), UserInfoPart(p);
    WrittenSchemeCorrect(p);
    WrittenUserInfoCorrect(p);
    if p.scheme.Some? == HasAuthority(p) {
      SameMiddle(a1, w, u, t);
    } else {
      assert |a1 + w + t| != |a2 + u + t|;
    }
  }

  /**
   * Substituting the original host gives back the URL the components stand
   * for (user and password both present or both absent, and a scheme exactly
   * when there is an authority).
   */
  lemma BuildUrlOriginalHost(url: string, p: UrlParts)
    requires p.user.Some? == p.pass.Some? && p.scheme.Some? == HasAuthority(p)
    ensures BuildUrl(url, Some(p), OrEmpty(p.host)) == Assemble(p)
  {
    BuildUrlMatchesAssemble(url, p, OrEmpty(p.host));
    assert WithHost(p, OrEmpty(p.host)) == p;
  }

  /**
   * Without user and password, the result is the scheme, "://", the new host,
   * then the optional port, path, query and fragment with their separators.
   */
  lemma BuildUrlWithoutUserInfo(url: string, p: UrlParts, h: string)
    requires p.scheme.Some? && p.host.Some? && p.user.None? && p.pass.None?
    ensures BuildUrl(url, Some(p), h)
         == p.scheme.value + "://" + h + PortPart(p) + OrEmpty(p.path) + QueryPart(p) + FragmentPart(p)
  {
  }

  /** Without a host component the new host is never written. */
  lemma BuildUrlWithoutHost(url: string, p: UrlParts, h1: string, h2: string)
    requires p.host.None?
    ensures BuildUrl(url, Some(p), h1) == BuildUrl(url, Some(p), h2)
  {
  }

  /**
   * Of a successfully parsed URL only the components count: neither the URL's
   * text nor the value of the parsed host reaches the result.
   */
  lemma BuildUrlIgnoresParsedHost(url1: string, url2: string, p: UrlParts, parsedHost: string, h: string)
    ensures BuildUrl(url1, Some(WithHost(p, parsedHost)), h) == BuildUrl(url2, Some(p), h)
  {
  }

  // ---------------------------------------------------------------------------
  // The fragment survives the rebuild
  // ---------------------------------------------------------------------------

  /** What follows the first '#', if there is one. */
  function FragmentOf(s: string): Option<string>
  {
    if s == [] then None
    else if s[0] == '#' then Some(s[1..])
    else FragmentOf(s[1..])
  }

  lemma {:induction false} FragmentOfAfterPlain(a: string, b: string)
    requires '#' !in a
    ensures FragmentOf(a + b) == FragmentOf(b)
  {
    if a == [] {
      assert a + b == b;
    } else {
      assert (a + b)[0] == a[0];
      assert (a + b)[1..] == a[1..] + b;
      FragmentOfAfterPlain(a[1..], b);
    }
  }

  predicate Lacks(c: char, o: Option<string>)
  {
    o.None? || c !in o.value
  }

  /**
   * With components free of '#', as `parse_url` produces them, and a new host
   * free of '#', the fragment of the rebuilt URL is the original fragment.
   */
  lemma BuildUrlKeepsFragment(url: string, p: UrlParts, h: string)
    requires Lacks('#', p.scheme) && Lacks('#', p.user) && Lacks('#', p.pass)
    requires Lacks('#', p.path) && Lacks('#', p.query) && '#' !in h
    ensures FragmentOf(BuildUrl(url, Some(p), h)) == p.fragment
  {
    var a, b := WrittenScheme(p), WrittenUserInfo(p);
    var d := if p.host.Some? then h else "";
    var e, f, g, k := PortPart(p), OrEmpty(p.path), QueryPart(p), FragmentPart(p);
    var pre := a + b + d + e + f + g;
    BuildUrlShape(url, p, h);
    RegroupLast(a, b, d, e, f, g, k);
    assert BuildUrl(url, Some(p), h) == pre + k;
    if p.port.Some? {
      assert '#' !in Decimal(p.port.value);
    }
    assert '#' !in a && '#' !in b && '#' !in d && '#' !in e && '#' !in f && '#' !in g;
    assert '#' !in pre;
    FragmentOfAfterPlain(pre, k);
    if p.fragment.Some? {
      assert k[1..] == p.fragment.value;
    }
  }

  // ---------------------------------------------------------------------------
  // Corrected rebuild: the separators of RFC 3986 section 5.3
  // ---------------------------------------------------------------------------

  /**
   * `buildUrl` with the separators section 5.3 of RFC 3986 asks for: scheme
   * ":", "//" before an authority, and userinfo as user [":" password] "@".
   */
  function BuildUrlFixed(url: string, parsed: Option<UrlParts>, host: string): (r: string)
    ensures parsed.None? ==> r == url
  {
    match parsed
    case None => url
    case Some(p) =>
      (if p.scheme.Some? then p.scheme.value + ":" else "")
      + (if p.user.Some? || p.pass.Some? || p.host.Some? || p.port.Some? then "//" else "")
      + (if p.user.Some? then p.user.value else "")
      + (if p.pass.Some? then ":" + p.pass.value else "")
      + (if p.user.Some? || p.pass.Some? then "@" else "")
      + (if p.host.Some? then host else "")
      + (if p.port.Some? then ":" + Decimal(p.port.value) else "")
      + (if p.path.Some? then p.path.value else "")
      + (if p.query.Some? then "?" + p.query.value else "")
      + (if p.fragment.Some? then "#" + p.fragment.value else "")
  }

  /**
   * The corrected rebuild always recomposes the components with the new host,
   * and agrees with the source whenever user and password come together and a
   * scheme comes exactly with a reported authority.
   */
  lemma BuildUrlFixedMatchesAssemble(url: string, p: UrlParts, h: string)
    ensures BuildUrlFixed(url, Some(p), h) == Assemble(WithHost(p, h))
    ensures p.user.Some? == p.pass.Some? && p.scheme.Some? == HasAuthority(p)
            ==> BuildUrlFixed(url, Some(p), h) == BuildUrl(url, Some(p), h)
  {
    var a, s := SchemePart(p), Slashes(p);
    var b := if p.user.Some? then p.user.value else "";
    var c := if p.pass.Some? then ":" + p.pass.value else "";
    var x := if p.user.Some? || p.pass.Some? then "@" else "";
    var d := if p.host.Some? then h else "";
    var e, f, g, k := PortPart(p), OrEmpty(p.path), QueryPart(p), FragmentPart(p);
    assert BuildUrlFixed(url, Some(p), h) == a + s + b + c + x + d + e + f + g + k;
    Regroup10(a, s, b, c, x, d, e, f, g, k);
    assert b + c + x == UserInfoPart(p);
    AssembleShape(p, h);
    BuildUrlMatchesAssemble(url, p, h);
  }

  /**
   * "http://u@old.example/" rebuilt with "new.example": the source writes
   * "http://u:new.example/", which names host "u" and port "new.example";
   * the corrected rebuild writes "http://u@new.example/".
   */
  lemma UserWithoutPasswordLosesAt()
    ensures var p := UrlParts(Some("http"), Some("u"), None, Some("old.example"), None, Some("/"), None, None);
            && BuildUrl("http://u@old.example/", Some(p), "new.example") == "http://u:new.example/"
            && BuildUrlFixed("http://u@old.example/", Some(p), "new.example") == "http://u@new.example/"
  {
  }

  /**
   * The source ties "//" to the scheme instead of the authority: the
   * scheme-relative "//old.example/x" comes out as the relative path
   * "new.example/x", and "mailto:joe@example.com" gains a "//" that turns
   * "joe@example.com" into an authority. The corrected rebuild keeps both.
   */
  lemma SlashesFollowScheme()
    ensures var p := UrlParts(None, None, None, Some("old.example"), None, Some("/x"), None, None);
            && BuildUrl("//old.example/x", Some(p), "new.example") == "new.example/x"
            && BuildUrlFixed("//old.example/x", Some(p), "new.example") == "//new.example/x"
    ensures var p := UrlParts(Some("mailto"), None, None, None, None, Some("joe@example.com"), None, None);
            && BuildUrl("mailto:joe@example.com", Some(p), "new.example") == "mailto://joe@example.com"
            && BuildUrlFixed("mailto:joe@example.com", Some(p), "new.example") == "mailto:joe@example.com"
  {
  }

  /**
   * `parse_url` reports nothing for an empty authority, so "file:///x" and
   * "file:/x" give the same components. The source writes "file://" and so
   * returns "file:///x" unchanged; the corrected rebuild, seeing no authority,
   * writes "file:/x".
   */
  lemma EmptyAuthorityDropped()
    ensures var p := UrlParts(Some("file"), None, None, None, None, Some("/x"), None, None);
            && BuildUrl("file:///x", Some(p), "new.example") == "file:///x"
            && BuildUrlFixed("file:///x", Some(p), "new.example") == "file:/x"
  {
  }
}
