/** The backend's two HTTP handlers: `POST /create-short-url`, which stores a
    new mapping and answers with the short URL, and `GET /:shortUrl`, which
    redirects to the stored URL. Responses are modelled as status code plus
    the JSON fields the handler sets. The short-code generator and the click
    tracker live outside this model and come in as parameters. */
module Handler {
  import opened Common
  import opened LinkStore

  /** The JSON body of a creation request. Both the snake_case and the
      camelCase spellings are accepted; a field missing from the JSON is the
      empty string, as Go's zero value. */
  datatype CreationRequest = CreationRequest(
    snakeLongUrl: string,   // "long_url"
    snakeUserId: string,    // "user_id"
    camelLongUrl: string,   // "longUrl"
    camelUserId: string)    // "userId"

  /** The body after JSON binding: either a request or the binder's error text. */
  datatype Body = Malformed(message: string) | Parsed(request: CreationRequest)

  const GuestUser := "guest-user"
  const ProductionHost := "https://shrinkr-2k0u.onrender.com/"
  const DevelopmentHost := "http://localhost:9808/"
  const UrlRequired := "URL is required"
  const SaveFailed := "Failed to save URL mapping. Please try again."
  const Created := "short url created successfully"
  const LinkNotFound := "Short URL not found"

  const StatusOk: nat := 200
  const StatusFound: nat := 302
  const StatusBadRequest: nat := 400
  const StatusNotFound: nat := 404
  const StatusInternalServerError: nat := 500

  /** The long URL: `long_url`, falling back to `longUrl` when empty. */
  function ResolveLongUrl(req: CreationRequest): (u: string)
    ensures req.snakeLongUrl != "" ==> u == req.snakeLongUrl
    ensures req.snakeLongUrl == "" ==> u == req.camelLongUrl
    ensures u == "" <==> req.snakeLongUrl == "" && req.camelLongUrl == ""
  {
    if req.snakeLongUrl != "" then req.snakeLongUrl else req.camelLongUrl
  }

  /** The owner: `user_id`, then `userId`, then the guest user; never empty. */
  function ResolveUserId(req: CreationRequest): (u: string)
    ensures u != ""
    ensures req.snakeUserId != "" ==> u == req.snakeUserId
    ensures req.snakeUserId == "" && req.camelUserId != "" ==> u == req.camelUserId
    ensures req.snakeUserId == "" && req.camelUserId == "" ==> u == GuestUser
  {
    if req.snakeUserId != "" then req.snakeUserId
    else if req.camelUserId != "" then req.camelUserId
    else GuestUser
  }

  /** The public host that prefixes short codes: the local one exactly when
      `GO_ENV` is `development`. */
  function Host(env: Env): (h: string)
    ensures Getenv(env, "GO_ENV") == "development" ==> h == DevelopmentHost
    ensures Getenv(env, "GO_ENV") != "development" ==> h == ProductionHost
  {
    if Getenv(env, "GO_ENV") == "development" then DevelopmentHost else ProductionHost
  }

  /** Status code and JSON fields of a creation response. */
  datatype CreateResponse = CreateResponse(status: nat, shortUrl: Option<string>, message: Option<string>, error: Option<string>)

  datatype CreateOutcome = CreateOutcome(store: Store, response: CreateResponse)

  /** `CreateShortUrl`. `generate` stands for the short-code generator, a
      function of the long URL and the user id. */
  function CreateShortUrl(s: Store, body: Body, generate: (string, string) -> string, env: Env, now: int, f: SaveFaults): (r: CreateOutcome)
    ensures body.Malformed? ==> r == CreateOutcome(s, CreateResponse(StatusBadRequest, None, None, Some(body.message)))
    ensures body.Parsed? && ResolveLongUrl(body.request) == "" ==>
      r == CreateOutcome(s, CreateResponse(StatusBadRequest, None, None, Some(UrlRequired)))
    ensures body.Parsed? && ResolveLongUrl(body.request) != "" ==>
      var url, user := ResolveLongUrl(body.request), ResolveUserId(body.request);
      var saved := SaveUrlMapping(s, generate(url, user), url, user, now, f);
      && r.store == saved.store
      && (saved.outcome.Fail? ==> r.response == CreateResponse(StatusInternalServerError, None, None, Some(SaveFailed)))
      && (saved.outcome.Pass? ==> r.response == CreateResponse(StatusOk, Some(Host(env) + generate(url, user)), Some(Created), None))
    ensures r.response.status in {StatusOk, StatusBadRequest, StatusInternalServerError}
    ensures r.response.shortUrl.Some? <==> r.response.status == StatusOk
  {
    match body
    case Malformed(msg) => CreateOutcome(s, CreateResponse(StatusBadRequest, None, None, Some(msg)))
    case Parsed(req) =>
      var url, user := ResolveLongUrl(req), ResolveUserId(req);
      if url == "" then
        CreateOutcome(s, CreateResponse(StatusBadRequest, None, None, Some(UrlRequired)))
      else
        var code := generate(url, user);
        var saved := SaveUrlMapping(s, code, url, user, now, f);
        if saved.outcome.Fail? then
          CreateOutcome(saved.store, CreateResponse(StatusInternalServerError, None, None, Some(SaveFailed)))
        else
          CreateOutcome(saved.store, CreateResponse(StatusOk, Some(Host(env) + code), Some(Created), None))
  }

  /** Request metadata handed to the click tracker. */
  datatype ClientInfo = ClientInfo(ipAddress: string, userAgent: string, referer: string)

  /** The arguments of the call to the click tracker, and whether it failed. */
  datatype Tracking =
    | NotAttempted
    | Attempted(code: string, userId: string, client: ClientInfo, failed: bool)

  datatype RedirectResponse = Found(location: string) | NotFound(error: string) {
    function Status(): nat {
      if Found? then StatusFound else StatusNotFound
    }
  }

  datatype RedirectOutcome = RedirectOutcome(store: Store, response: RedirectResponse, tracking: Tracking)

  /** `HandleShortUrlRedirect`: look the code up; an empty answer is a 404,
      anything else is tracked (failure only logged) and redirected to. */
  function HandleShortUrlRedirect(s: Store, code: string, lf: LookupFaults, client: ClientInfo, trackingFails: bool): (r: RedirectOutcome)
    ensures r.store == RetrieveInitialUrl(s, code, lf).store
    ensures r.response.NotFound? <==> RetrieveInitialUrl(s, code, lf).url == ""
    ensures r.response.NotFound? ==> r.response.error == LinkNotFound && r.tracking == NotAttempted
    ensures r.response.Found? ==>
      r.response.location == RetrieveInitialUrl(s, code, lf).url
      && r.tracking == Attempted(code, GuestUser, client, trackingFails)
  {
    var lookup := RetrieveInitialUrl(s, code, lf);
    if lookup.url == "" then
      RedirectOutcome(lookup.store, NotFound(LinkNotFound), NotAttempted)
    else
      RedirectOutcome(lookup.store, Found(lookup.url), Attempted(code, GuestUser, client, trackingFails))
  }

  // ---------------------------------------------------------------------
  // Properties

  /** Any non-empty long URL is accepted: there is no scheme or format check.
      With working storage and at least one tier the answer is 200. */
  lemma AnyNonEmptyUrlAccepted(s: Store, req: CreationRequest, generate: (string, string) -> string, env: Env, now: int)
    requires ResolveLongUrl(req) != ""
    requires s.cache.Some? || s.db.Some?
    ensures CreateShortUrl(s, Parsed(req), generate, env, now, NoSaveFaults).response.status == StatusOk
  {
  }

  /** A failed save is a 500 and only happens with a database and no cache. */
  lemma ServerErrorOnlyFromLoneDatabase(s: Store, body: Body, generate: (string, string) -> string, env: Env, now: int, f: SaveFaults)
    ensures CreateShortUrl(s, body, generate, env, now, f).response.status == StatusInternalServerError ==>
      s.cache.None? && s.db.Some? && f.dbWriteFails
  {
  }

  /** Create then follow: a link created with working storage redirects (302)
      to exactly the submitted URL, whatever the click tracker does. */
  lemma CreateThenRedirect(s: Store, req: CreationRequest, generate: (string, string) -> string, env: Env, now: int,
                           client: ClientInfo, trackingFails: bool)
    requires ResolveLongUrl(req) != ""
    requires s.cache.Some? || s.db.Some?
    ensures var created := CreateShortUrl(s, Parsed(req), generate, env, now, NoSaveFaults);
      var code := generate(ResolveLongUrl(req), ResolveUserId(req));
      var followed := HandleShortUrlRedirect(created.store, code, NoLookupFaults, client, trackingFails);
      && created.response.shortUrl == Some(Host(env) + code)
      && followed.response == Found(ResolveLongUrl(req))
      && followed.response.Status() == StatusFound
  {
    SaveThenRetrieve(s, generate(ResolveLongUrl(req), ResolveUserId(req)), ResolveLongUrl(req), ResolveUserId(req), now);
  }

  /** Without any storage tier a creation still answers 200, but the short URL
      it hands out is never found. */
  lemma NoTierHandsOutDeadLinks(req: CreationRequest, generate: (string, string) -> string, env: Env, now: int,
                                f: SaveFaults, lf: LookupFaults, client: ClientInfo, trackingFails: bool)
    requires ResolveLongUrl(req) != ""
    ensures var s := Store(None, None);
      var created := CreateShortUrl(s, Parsed(req), generate, env, now, f);
      var code := generate(ResolveLongUrl(req), ResolveUserId(req));
      && created.response.status == StatusOk
      && HandleShortUrlRedirect(created.store, code, lf, client, trackingFails).response == NotFound(LinkNotFound)
  {
  }

  /** The redirect target does not depend on whether click tracking fails. */
  lemma TrackingFailureIsInvisible(s: Store, code: string, lf: LookupFaults, client: ClientInfo)
    ensures HandleShortUrlRedirect(s, code, lf, client, true).response == HandleShortUrlRedirect(s, code, lf, client, false).response
    ensures HandleShortUrlRedirect(s, code, lf, client, true).store == HandleShortUrlRedirect(s, code, lf, client, false).store
  {
  }
}
