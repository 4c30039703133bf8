/** The NextAuth options of `lib/auth.ts`: the list of missing required
    environment variables, the session callback's defaults and the redirect
    callback meant to keep post-login navigation on the app's own base URL.
    Only the analytics route reads these options (for `getServerSession`);
    the NextAuth route handler itself is built from the separate options in
    `app/api/auth/[...nextauth]/route.ts`, whose redirect callback compares
    origins. The redirect callback here is therefore not the one NextAuth
    calls; its weakness is latent. */
module Auth {
  import opened Common

  // ---------------------------------------------------------------------
  // Required environment variables

  /** The required variables, in declaration order. */
  const RequiredEnvKeys: seq<string> :=
    ["NEXTAUTH_SECRET", "GOOGLE_CLIENT_ID", "GOOGLE_CLIENT_SECRET", "GITHUB_CLIENT_ID", "GITHUB_CLIENT_SECRET"]

  /** `!value`: unset and empty both count as missing. */
  predicate Missing(env: Env, key: string) {
    key !in env || env[key] == ""
  }

  /** `missingEnvVars`: exactly the required keys that are missing, in
      declaration order. */
  function MissingEnvVars(env: Env): (r: seq<string>)
    ensures forall k :: k in r <==> k in RequiredEnvKeys && Missing(env, k)
    ensures IsSubsequence(r, RequiredEnvKeys)
    ensures |r| <= |RequiredEnvKeys|
  {
    var r := Filter(RequiredEnvKeys, (k: string) => Missing(env, k));
    FilterIsSubsequence(RequiredEnvKeys, (k: string) => Missing(env, k));
    r
  }

  /** With every variable set to a non-empty value nothing is reported. */
  lemma NothingMissingWhenAllSet(env: Env)
    requires forall k :: k in RequiredEnvKeys ==> k in env && env[k] != ""
    ensures MissingEnvVars(env) == []
  {
  }

  /** With an empty environment all five are reported, in declaration order. */
  lemma AllMissingWhenNoneSet()
    ensures MissingEnvVars(map[]) == RequiredEnvKeys
  {
    FilterAll(RequiredEnvKeys, (k: string) => Missing(map[], k));
  }

  // ---------------------------------------------------------------------
  // Session callback

  datatype SessionUser = SessionUser(
    name: Option<string>,
    email: Option<string>,
    image: Option<string>,
    id: Option<string>,
    role: Option<string>,
    subscriptionTier: Option<string>)

  datatype Session = Session(user: Option<SessionUser>, expires: string)

  /** The database user the adapter hands to the callback. */
  datatype DbUser = DbUser(id: string, role: Option<string>, subscriptionTier: Option<string>)

  const DefaultRole := "USER"
  const DefaultTier := "FREE"

  /** `x || fallback` on an optional string. */
  function OrDefault(x: Option<string>, fallback: string): (r: string)
    ensures x.Some? && x.value != "" ==> r == x.value
    ensures x.None? || x.value == "" ==> r == fallback
  {
    if x.Some? && x.value != "" then x.value else fallback
  }

  /** `callbacks.session`: copy the user's id, role and tier into the
      session's user, defaulting role to USER and tier to FREE. A session
      without a user is returned unchanged. */
  function SessionCallback(session: Session, user: DbUser): (r: Session)
    ensures session.user.None? ==> r == session
    ensures r.expires == session.expires
    ensures session.user.Some? ==> r.user.Some?
    ensures session.user.Some? && r.user.Some? ==>
      var before, after := session.user.value, r.user.value;
      && after.name == before.name && after.email == before.email && after.image == before.image
      && after.id == Some(user.id)
      && after.role == Some(OrDefault(user.role, DefaultRole))
      && after.subscriptionTier == Some(OrDefault(user.subscriptionTier, DefaultTier))
  {
    match session.user
    case None => session
    case Some(u) =>
      var u' := u.(id := Some(user.id),
                   role := Some(OrDefault(user.role, DefaultRole)),
                   subscriptionTier := Some(OrDefault(user.subscriptionTier, DefaultTier)));
      session.(user := Some(u'))
  }

  /** After the callback a session user always has a non-empty role and tier. */
  lemma SessionRoleNeverEmpty(session: Session, user: DbUser)
    requires session.user.Some?
    ensures var u := SessionCallback(session, user).user.value;
      u.role.Some? && u.role.value != "" && u.subscriptionTier.Some? && u.subscriptionTier.value != ""
  {
  }

  // ---------------------------------------------------------------------
  // Redirect callback

  const SignInPath := "/auth/signin"
  const ApiSignInPath := "/api/auth/signin"
  const SignOutPath := "/auth/signout"
  const ApiSignOutPath := "/api/auth/signout"

  /** `process.env.NEXTAUTH_URL || baseUrl` */
  function EffectiveBaseUrl(env: Env, baseUrl: string): (b: string)
    ensures "NEXTAUTH_URL" in env && env["NEXTAUTH_URL"] != "" ==> b == env["NEXTAUTH_URL"]
    ensures "NEXTAUTH_URL" !in env || env["NEXTAUTH_URL"] == "" ==> b == baseUrl
  {
    EnvOr(env, "NEXTAUTH_URL", baseUrl)
  }

  predicate IsAuthPage(url: string) {
    || Includes(url, SignInPath) || Includes(url, ApiSignInPath)
    || Includes(url, SignOutPath) || Includes(url, ApiSignOutPath)
  }

  /** `callbacks.redirect` as written: sign-in and sign-out URLs go to the
      base; a path is appended to the base; a URL that starts with the base
      text is kept; anything else goes to the base. The result always starts
      with the base. */
  function Redirect(env: Env, url: string, baseUrl: string): (r: string)
    ensures StartsWith(r, EffectiveBaseUrl(env, baseUrl))
    ensures IsAuthPage(url) ==> r == EffectiveBaseUrl(env, baseUrl)
    ensures !IsAuthPage(url) && StartsWith(url, "/") ==> r == EffectiveBaseUrl(env, baseUrl) + url
    ensures !IsAuthPage(url) && !StartsWith(url, "/") ==>
      r == (if StartsWith(url, EffectiveBaseUrl(env, baseUrl)) then url else EffectiveBaseUrl(env, baseUrl))
  {
    var base := EffectiveBaseUrl(env, baseUrl);
    if Includes(url, SignInPath) || Includes(url, ApiSignInPath) then base
    else if Includes(url, SignOutPath) || Includes(url, ApiSignOutPath) then base
    else if StartsWith(url, "/") then base + url
    else if StartsWith(url, base) then url
    else base
  }

  /** The `/api/...` alternatives never change the decision: any URL that
      contains `/api/auth/signin` contains `/auth/signin` (and likewise for
      sign-out). */
  lemma ApiAlternativesRedundant(url: string)
    ensures Includes(url, ApiSignInPath) ==> Includes(url, SignInPath)
    ensures Includes(url, ApiSignOutPath) ==> Includes(url, SignOutPath)
  {
    assert ApiSignInPath == "/api" + SignInPath;
    assert ApiSignOutPath == "/api" + SignOutPath;
    if Includes(url, ApiSignInPath) {
      IncludesSuffix(url, "/api", SignInPath);
    }
    if Includes(url, ApiSignOutPath) {
      IncludesSuffix(url, "/api", SignOutPath);
    }
  }

  /** `r` stays on the site `base` names: it is `base` itself or continues it
      with a path, query or fragment (or `base` already ends in a slash). */
  predicate OnBase(r: string, base: string) {
    && StartsWith(r, base)
    && (|r| == |base| || r[|base|] in {'/', '?', '#'} || (|base| > 0 && base[|base| - 1] == '/'))
  }

  /** The same-origin test as the comment at the branch describes it. */
  function RedirectOnBase(env: Env, url: string, baseUrl: string): (r: string)
    ensures OnBase(r, EffectiveBaseUrl(env, baseUrl))
    ensures OnBase(url, EffectiveBaseUrl(env, baseUrl)) && !IsAuthPage(url) && !StartsWith(url, "/") ==> r == url
    ensures StartsWith(url, "/") && !IsAuthPage(url) ==> r == EffectiveBaseUrl(env, baseUrl) + url
    ensures IsAuthPage(url) ==> r == EffectiveBaseUrl(env, baseUrl)
    ensures !IsAuthPage(url) && !StartsWith(url, "/") && !OnBase(url, EffectiveBaseUrl(env, baseUrl)) ==>
      r == EffectiveBaseUrl(env, baseUrl)
  {
    var base := EffectiveBaseUrl(env, baseUrl);
    if IsAuthPage(url) then base
    else if StartsWith(url, "/") then
      assert (base + url)[|base|] == url[0];
      base + url
    else if OnBase(url, base) then url
    else base
  }

  /** Both definitions agree whenever the written one stays on the site. */
  lemma RedirectOnBaseAgrees(env: Env, url: string, baseUrl: string)
    requires OnBase(Redirect(env, url, baseUrl), EffectiveBaseUrl(env, baseUrl))
    ensures RedirectOnBase(env, url, baseUrl) == Redirect(env, url, baseUrl)
  {
  }

  /** The written prefix test lets a different host through: a URL that
      continues the base with anything but a path, query or fragment (for
      instance `https://app.example.evil.test/`, or
      `https://app.example@evil.test/` whose host is `evil.test`) is returned
      unchanged, although it is not on the site. */
  lemma {:induction false} PrefixTestLeavesSite(base: string, url: string)
    requires |base| > 0 && base[|base| - 1] != '/'
    requires StartsWith(url, base) && |url| > |base| && url[|base|] !in {'/', '?', '#'}
    requires !StartsWith(url, "/") && !IsAuthPage(url)
    ensures Redirect(map[], url, base) == url
    ensures !OnBase(Redirect(map[], url, base), base)
  {
    assert EffectiveBaseUrl(map[], base) == base;
  }

  /** The two example URLs above, with base `https://app.example`: the first
      names a subdomain of another site, the second has host `evil.test`
      with the base as mere user-info. */
  lemma LookalikeHostsKept(base: string, suffix: string)
    requires base == "https://app.example"
    requires suffix == ".evil.test/" || suffix == "@evil.test/"
    ensures Redirect(map[], base + suffix, base) == base + suffix && !OnBase(base + suffix, base)
  {
    var url := base + suffix;
    assert url[..|base|] == base;
    assert url[|base|] == suffix[0];
    assert url[0] == base[0];
    assert 'u' !in base && 'u' !in suffix;
    assert 'u' !in url;
    NoCharNoInclude(url);
    PrefixTestLeavesSite(base, url);
  }

  /** A URL without the letter `u` names no sign-in or sign-out page. */
  lemma NoCharNoInclude(url: string)
    requires 'u' !in url
    ensures !IsAuthPage(url)
  {
    MissingCharNotIncluded(url, SignInPath, 'u');
    MissingCharNotIncluded(url, ApiSignInPath, 'u');
    MissingCharNotIncluded(url, SignOutPath, 'u');
    MissingCharNotIncluded(url, ApiSignOutPath, 'u');
  }

  /** A character of `p` that `s` lacks rules out every occurrence of `p`. */
  lemma {:induction false} MissingCharNotIncluded(s: string, p: string, c: char)
    requires c in p && c !in s
    ensures !Includes(s, p)
    decreases |s|
  {
    if |s| > 0 {
      assert forall x :: x in s[1..] ==> x in s;
      MissingCharNotIncluded(s[1..], p, c);
    }
  }
}
