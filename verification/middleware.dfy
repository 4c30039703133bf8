/** The frontend's edge middleware: it bounces a visitor who already holds a
    session cookie away from the sign-in and sign-up pages, and the route
    matcher decides on which paths it runs at all. */
module Middleware {
  import opened Common

  const SignInPage := "/auth/signin"
  const SignUpPage := "/auth/signup"
  const HomePage := "/"

  /** The cookie names NextAuth may use for its session, in the order the
      middleware asks for them. */
  const SessionCookieNames: seq<string> :=
    ["next-auth.session-token", "__Secure-next-auth.session-token", "next-auth.session", "__Host-next-auth.session-token"]

  /** Request cookies by name. */
  type Cookies = map<string, string>

  /** `cookie?.value` is truthy: the cookie is there with a non-empty value. */
  predicate Present(cookies: Cookies, name: string) {
    name in cookies && cookies[name] != ""
  }

  /** `sessionCookies.some(...)` over the given names. */
  function AnyPresent(cookies: Cookies, names: seq<string>): (b: bool)
    ensures b <==> exists k :: 0 <= k < |names| && Present(cookies, names[k])
    decreases |names|
  {
    if |names| == 0 then false
    else Present(cookies, names[0]) || AnyPresent(cookies, names[1..])
  }

  predicate HasSessionCookie(cookies: Cookies) {
    AnyPresent(cookies, SessionCookieNames)
  }

  datatype Action = Next | RedirectTo(location: string)

  /** `middleware`: redirect to the home page exactly when the path is one of
      the two auth pages and some session cookie is set; otherwise continue. */
  function Decide(path: string, cookies: Cookies): (r: Action)
    ensures r.RedirectTo? <==>
      (path == SignInPage || path == SignUpPage)
      && exists name :: name in SessionCookieNames && Present(cookies, name)
    ensures r.RedirectTo? ==> r.location == HomePage
  {
    if (path == SignInPage || path == SignUpPage) && HasSessionCookie(cookies) then
      RedirectTo(HomePage)
    else
      Next
  }

  /** A cookie under any other name, or a session cookie with an empty value,
      never causes the redirect. */
  lemma OnlySessionCookiesCount(path: string, cookies: Cookies, name: string, value: string)
    requires name !in SessionCookieNames || value == ""
    requires Decide(path, cookies) == Next
    ensures Decide(path, cookies[name := value]) == Next
  {
  }

  // ---------------------------------------------------------------------
  // Route matcher `/((?!api|_next|fonts|images|favicon.ico|site.webmanifest).*)`

  /** The alternatives of the negative lookahead. */
  const ExcludedPatterns: seq<string> := ["api", "_next", "fonts", "images", "favicon.ico", "site.webmanifest"]

  /** A pattern character against a path character: the regular-expression
      dot matches any character (a pathname holds no line terminators, the
      URL parser having encoded or dropped them). */
  predicate CharMatches(pat: char, c: char) {
    pat == '.' || pat == c
  }

  /** The pattern matches at the start of `s`. */
  predicate PatternAt(s: string, pat: string) {
    |pat| <= |s| && forall i :: 0 <= i < |pat| ==> CharMatches(pat[i], s[i])
  }

  /** Some alternative matches at the start of `s`. */
  function AnyPatternAt(s: string, pats: seq<string>): (b: bool)
    ensures b <==> exists k :: 0 <= k < |pats| && PatternAt(s, pats[k])
    decreases |pats|
  {
    if |pats| == 0 then false
    else PatternAt(s, pats[0]) || AnyPatternAt(s, pats[1..])
  }

  /** The middleware runs on `path`: a leading slash not followed by any of
      the excluded alternatives. The lookahead only tests a prefix. */
  function Matches(path: string): (b: bool)
    ensures b <==>
      && |path| > 0 && path[0] == '/'
      && forall k :: 0 <= k < |ExcludedPatterns| ==> !PatternAt(path[1..], ExcludedPatterns[k])
  {
    |path| > 0 && path[0] == '/' && !AnyPatternAt(path[1..], ExcludedPatterns)
  }

  /** What a request sees: the middleware's decision on matched paths, a
      plain pass-through elsewhere. */
  function Handle(path: string, cookies: Cookies): (r: Action)
    ensures !Matches(path) ==> r == Next
    ensures Matches(path) ==> r == Decide(path, cookies)
  {
    if Matches(path) then Decide(path, cookies) else Next
  }

  /** Every path that starts with an excluded alternative is skipped, however
      it continues: `/api/urls`, but also `/apiary` or `/fontsmith`. */
  lemma {:induction false} ExcludedPrefixSkipped(k: nat, rest: string)
    requires k < |ExcludedPatterns|
    ensures !Matches("/" + ExcludedPatterns[k] + rest)
  {
    var pat := ExcludedPatterns[k];
    var path := "/" + pat + rest;
    assert path[1..] == pat + rest;
    assert forall i :: 0 <= i < |pat| ==> path[1..][i] == pat[i];
    assert PatternAt(path[1..], pat);
  }

  /** The dot in `favicon.ico` is a wildcard: `/faviconXico` is skipped too. */
  lemma DotIsWildcard(path: string)
    requires path == "/faviconXico"
    ensures !Matches(path)
  {
    assert PatternAt(path[1..], ExcludedPatterns[4]);
  }

  /** The two auth pages are matched, so the bounce can happen there. */
  lemma AuthPagesMatched(path: string)
    requires path == SignInPage || path == SignUpPage
    ensures Matches(path)
  {
    assert path[1] == 'a' && path[2] == 'u';
  }

  /** A signed-in visitor of an auth page ends up on the home page; anywhere
      else, and without a session cookie, the request passes through. */
  lemma BounceOnlyFromAuthPages(path: string, cookies: Cookies)
    ensures Handle(path, cookies).RedirectTo? <==>
      (path == SignInPage || path == SignUpPage) && HasSessionCookie(cookies)
  {
    if path == SignInPage || path == SignUpPage {
      AuthPagesMatched(path);
    }
  }
}
