/** The frontend's URL configuration: where the backend API lives, where
    short links are served from, and the two helpers that build URLs on top
    of those bases. */
module Config {
  import opened Common
  import Handler

  const DefaultApiUrl := "http://localhost:9808"
  const DefaultShortUrlBase := "http://localhost:9808"
  const DefaultFrontendUrl := "http://localhost:3000"

  datatype Settings = Settings(apiUrl: string, shortUrlBase: string, frontendUrl: string)

  /** `config`: each base comes from its environment variable unless that is
      unset or empty. None of the three is ever empty. */
  function LoadConfig(env: Env): (c: Settings)
    ensures c.apiUrl == EnvOr(env, "NEXT_PUBLIC_API_URL", DefaultApiUrl)
    ensures c.shortUrlBase == EnvOr(env, "NEXT_PUBLIC_SHORT_URL_BASE", DefaultShortUrlBase)
    ensures c.frontendUrl == EnvOr(env, "NEXT_PUBLIC_FRONTEND_URL", DefaultFrontendUrl)
    ensures c.apiUrl != "" && c.shortUrlBase != "" && c.frontendUrl != ""
  {
    Settings(
      EnvOr(env, "NEXT_PUBLIC_API_URL", DefaultApiUrl),
      EnvOr(env, "NEXT_PUBLIC_SHORT_URL_BASE", DefaultShortUrlBase),
      EnvOr(env, "NEXT_PUBLIC_FRONTEND_URL", DefaultFrontendUrl))
  }

  /** `buildShortUrl`: the base, a slash, the code. */
  function BuildShortUrl(c: Settings, code: string): (r: string)
    ensures StartsWith(r, c.shortUrlBase + "/")
    ensures |r| == |c.shortUrlBase| + 1 + |code|
  {
    c.shortUrlBase + "/" + code
  }

  /** The inverse of `BuildShortUrl`: the code of a URL under the short-link
      base, if it is one. */
  function ShortCodeOf(c: Settings, url: string): (r: Option<string>)
    ensures r.Some? <==> StartsWith(url, c.shortUrlBase + "/")
    ensures r.Some? ==> url == c.shortUrlBase + "/" + r.value
  {
    var prefix := c.shortUrlBase + "/";
    if StartsWith(url, prefix) then
      assert url == prefix + url[|prefix|..];
      Some(url[|prefix|..])
    else
      None
  }

  /** Round trip: every built short URL gives its code back. */
  lemma ShortUrlRoundTrip(c: Settings, code: string)
    ensures ShortCodeOf(c, BuildShortUrl(c, code)) == Some(code)
  {
    var prefix := c.shortUrlBase + "/";
    assert BuildShortUrl(c, code) == prefix + code;
    assert (prefix + code)[|prefix|..] == code;
  }

  /** Different codes give different short URLs. */
  lemma BuildShortUrlInjective(c: Settings, a: string, b: string)
    requires BuildShortUrl(c, a) == BuildShortUrl(c, b)
    ensures a == b
  {
    ShortUrlRoundTrip(c, a);
    ShortUrlRoundTrip(c, b);
  }

  /** With the defaults, the frontend's short URL is the backend's
      development-mode short URL for the same code. */
  lemma DefaultsAgreeWithBackend(env: Env, code: string)
    requires "NEXT_PUBLIC_SHORT_URL_BASE" !in env
    ensures BuildShortUrl(LoadConfig(env), code) == Handler.DevelopmentHost + code
  {
  }

  /** `buildApiUrl`: the API base followed by the endpoint, with exactly one
      slash supplied when the endpoint does not start with one. */
  function BuildApiUrl(c: Settings, endpoint: string): (r: string)
    ensures StartsWith(r, c.apiUrl + "/")
    ensures StartsWith(endpoint, "/") ==> r == c.apiUrl + endpoint
    ensures !StartsWith(endpoint, "/") ==> r == c.apiUrl + "/" + endpoint
  {
    if StartsWith(endpoint, "/") then
      assert (c.apiUrl + endpoint)[..|c.apiUrl| + 1] == c.apiUrl + endpoint[..1];
      c.apiUrl + endpoint
    else
      c.apiUrl + "/" + endpoint
  }

  /** A leading slash on the endpoint makes no difference. */
  lemma {:induction false} LeadingSlashOptional(c: Settings, endpoint: string)
    requires !StartsWith(endpoint, "/")
    ensures BuildApiUrl(c, endpoint) == BuildApiUrl(c, "/" + endpoint)
  {
    assert ("/" + endpoint)[..1] == "/";
    assert c.apiUrl + "/" + endpoint == c.apiUrl + ("/" + endpoint);
  }
}
