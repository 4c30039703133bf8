# A Dafny model of the Shrinkr URL shortener core

Shrinkr turns long URLs into short links. A Go backend stores the mapping
from short code to long URL in a Redis cache in front of a Postgres table,
answers `POST /create-short-url`, and redirects `GET /:shortUrl` to the
stored URL. A Next.js frontend adds sign-in through NextAuth, a dashboard
with per-user link listings and click analytics, and edge middleware that
keeps signed-in users off the sign-in pages.

This project models that core as pure functions over immutable data and
proves properties about it:

- `store.dfy` (module `LinkStore`): the two storage tiers, the save and the
  read-through lookup, and the cache TTL. Each storage call that can fail
  has an explicit fault flag.
- `handler.dfy` (module `Handler`): the two HTTP handlers, as status code
  plus JSON fields. The short-code generator and the click tracker are
  parameters.
- `records.dfy`, `ranking.dfy`, `analytics.dfy`, `listing.dfy`: the rows the
  dashboard API reads, a top-N selection used for every `orderBy` plus
  `take`, and the two dashboard API routes (`/api/analytics`, `/api/urls`).
- `auth.dfy` (module `Auth`): the required-variable check, the session
  callback and the redirect callback of the NextAuth options in
  `lib/auth.ts`, which the analytics route reads.
- `middleware.dfy`: the edge middleware and its route matcher.
- `config.dfy`: the frontend URL configuration and its two URL builders.
- `dashboard.dfy`: the dashboard's URL-shortening and "time ago"
  formatters.
- `common.dfy`: shared vocabulary: `Option`, JavaScript `||` defaults,
  string prefix and substring tests, decimal numerals, counting and
  filtering over sequences.

Times are integer milliseconds since the epoch. Day boundaries are UTC
(`t / 86400000`).

## Model

| member | source | states |
|---|---|---|
| LinkStore.Upsert | store/store_service.go:119-126 | the conflict update replaces URL and owner of an existing code, keeps its creation time, and touches no other row |
| LinkStore.CacheSet | store/store_service.go:106-112 | a cache `SET` that works maps the code to the URL and keeps every other entry; one that fails leaves the cache as it was; the same write fills the cache after a database hit (lines 172-174) |
| LinkStore.SaveUrlMapping | store/store_service.go:104-140 | a save fails exactly when a database exists, its write fails and there is no cache client; a working cache write sets exactly the code's entry; a working database write is exactly the upsert; a failed write leaves its tier as it was; no other key changes |
| LinkStore.RetrieveInitialUrl | store/store_service.go:148-179 | a cache hit is answered from the cache with nothing changed; otherwise a database row is answered and copied into the cache; otherwise the empty string, with nothing changed; a failed fill changes nothing; the database is never written |
| LinkStore.Expire | store/store_service.go:35 | the six-hour cache TTL running out removes exactly that key from the cache, keeps every other entry, and leaves the database alone |
| LinkStore.SaveThenRetrieve | store/store_service.go:104-179 | round trip: with at least one tier and no faults, a save succeeds and the following lookup returns exactly the saved URL |
| LinkStore.OverwriteLastWriteWins | store/store_service.go:119-126 | saving a code twice keeps the second URL and owner, the first creation time, and never fails on the conflict |
| LinkStore.SaveErrorOnlyFromLoneDatabase | store/store_service.go:128-139 | a store with no tier, or a save whose database write succeeds, never reports an error |
| LinkStore.SuccessWithoutStoring | store/store_service.go:106-139 | with a cache client, a save whose two writes both fail still reports success, and every later lookup of the code finds nothing |
| LinkStore.CacheHitLeavesStore | store/store_service.go:150-155 | a cache hit returns the cached value and changes neither tier |
| LinkStore.MissThenFillThenHit | store/store_service.go:158-176 | after a miss answered by the database, the next lookup hits the cache with the same URL |
| LinkStore.NotFoundSignal | store/store_service.go:148-179 | a non-empty answer comes from the tier that holds it; no tier, or a failed database read after a cache miss, means the empty answer |
| LinkStore.CoherencePreserved | store/store_service.go:104-179 | lookups, fault-free saves and expiry keep the cache in agreement with the database on every key both hold |
| LinkStore.StaleCacheAfterFailedCacheWrite | store/store_service.go:106-112 | a failed cache write during an overwrite leaves the old URL in the cache; lookups keep serving it while the database holds the new one |
| LinkStore.ExpiryHealsStaleEntry | store/store_service.go:148-176 | once the cache entry expires, the lookup serves the database's URL again |
| Handler.ResolveLongUrl | endpoint_handler/handler.go:32-37 | `long_url` wins when non-empty, else `longUrl`; the result is empty exactly when both are |
| Handler.ResolveUserId | endpoint_handler/handler.go:33-45 | `user_id`, then `userId`, then `guest-user`; never empty |
| Handler.Host | endpoint_handler/handler.go:73-76 | the local host exactly when `GO_ENV` is `development`, the production host otherwise |
| Handler.CreateShortUrl | endpoint_handler/handler.go:21-82 | a malformed body is a 400 with the binder's message; an empty URL is a 400 "URL is required"; a failed save is a 500; otherwise a 200 whose short URL is host plus generated code, with the message "short url created successfully"; only a 200 carries a short URL |
| Handler.HandleShortUrlRedirect | endpoint_handler/handler.go:84-114 | an empty lookup is a 404 with no tracking; otherwise a 302 to the stored URL, after one tracking call for the guest user |
| Handler.AnyNonEmptyUrlAccepted | endpoint_handler/handler.go:50-82 | any non-empty long URL is accepted with a 200 when storage works; there is no format check |
| Handler.ServerErrorOnlyFromLoneDatabase | endpoint_handler/handler.go:60-68 | a 500 only happens with a database, no cache client and a failing database write |
| Handler.CreateThenRedirect | endpoint_handler/handler.go:21-114 | create then follow: the handed-out short code redirects (302) to exactly the submitted URL, whatever the tracker does |
| Handler.NoTierHandsOutDeadLinks | endpoint_handler/handler.go:60-93 | without any storage tier a creation still answers 200, and its short code is then a 404 |
| Handler.TrackingFailureIsInvisible | endpoint_handler/handler.go:103-113 | the redirect response and store do not depend on whether tracking fails |
| Records.OwnedUrls | frontend/src/app/api/analytics/route.ts:22-25 | exactly the links whose owner is the user, each as often as in the table and in table order |
| Records.SignedIn | frontend/src/app/api/analytics/route.ts:10 | `!session?.user?.id` refuses the request: signed in exactly with a present, non-empty user id (the same test is at urls/route.ts:10) |
| Ranking.TopBy | frontend/src/app/api/analytics/route.ts:122-125 | `orderBy desc` plus `take n`: min(n, length) elements drawn from the input as a sub-multiset, sorted by descending key, none left out that ranks above a selected one; a permutation when n covers the input |
| Analytics.UserClicks | frontend/src/app/api/analytics/route.ts:46-48 | exactly the clicks whose link belongs to the user, each as often as in the table and in table order |
| Analytics.StartDate | frontend/src/app/api/analytics/route.ts:15-19 | without the parameter the period starts 30 days of milliseconds before now; with it, `days` whole days before; never after now for a non-negative `days`, always after now for a negative one |
| Analytics.PeriodIsLastDays | frontend/src/app/api/analytics/route.ts:15-54 | a click is counted in the period exactly when it is at most `days` (default 30) whole days old |
| Analytics.MoreDaysCountMore | frontend/src/app/api/analytics/route.ts:15-54 | a longer period never counts fewer clicks |
| Analytics.Since | frontend/src/app/api/analytics/route.ts:49-54 | exactly the clicks at or after the start, each as often as given and in order |
| Analytics.SinceMonotone | frontend/src/app/api/analytics/route.ts:49-54 | an earlier start never counts fewer clicks |
| Analytics.Tally | frontend/src/app/api/analytics/route.ts:58-65 | `_count` of one group: the number of clicks whose field is exactly the value (a null field is never counted); it is positive exactly when some click holds the value |
| Analytics.PresentValues | frontend/src/app/api/analytics/route.ts:58-64 | the distinct non-null values of a field, each held by at least one click, none missing |
| Analytics.GroupCounts | frontend/src/app/api/analytics/route.ts:58-65 | one group per non-null value, with its exact click count, no value twice |
| Analytics.TopGroups | frontend/src/app/api/analytics/route.ts:57-81 | top countries and devices: at most five groups, largest first, exact counts, distinct values, and no omitted value with more clicks than a listed one |
| Analytics.ClicksByDay | frontend/src/app/api/analytics/route.ts:84-107 | seven consecutive days ending today, oldest first, each counting the clicks in its half-open day window |
| Analytics.CountBetween | frontend/src/app/api/analytics/route.ts:93-101 | the clicks of one half-open window, never more than all clicks |
| Analytics.WindowCountExtremes | frontend/src/app/api/analytics/route.ts:93-101 | a window holding every click counts them all; a window holding none, or an empty one, counts zero |
| Analytics.DayWindowsAdd | frontend/src/app/api/analytics/route.ts:93-101 | consecutive day windows are disjoint: their counts add up to the count over the whole span |
| Analytics.ClicksByDayWithinTotal | frontend/src/app/api/analytics/route.ts:84-107 | the seven daily counts never add up to more than the user's total clicks |
| Analytics.LinkOf | frontend/src/app/api/analytics/route.ts:114-120 | a click's link is one of the user's links, with the click's link id |
| Analytics.RecentSelection | frontend/src/app/api/analytics/route.ts:110-126 | the ten newest clicks of the user's links, newest first, none newer left out |
| Analytics.JoinAll | frontend/src/app/api/analytics/route.ts:141-149 | each recent click keeps its own fields and carries the short code and target of its link |
| Analytics.RecentClicks | frontend/src/app/api/analytics/route.ts:110-149 | the recent clicks joined with their links, at most ten, newest first |
| Analytics.GetAnalytics | frontend/src/app/api/analytics/route.ts:6-150 | 401 exactly without a session user id; the all-empty report for a user without links; otherwise totals, period count, top groups, daily series and recent clicks as defined above |
| Analytics.ReportShape | frontend/src/app/api/analytics/route.ts:84-126 | for a user with links: seven days whose sum is within the total, at most five top groups, at most ten recent clicks |
| UrlListing.NewestFirst | frontend/src/app/api/urls/route.ts:43-45 | the user's links reordered, none lost or added, newest creation first |
| UrlListing.PageOf | frontend/src/app/api/urls/route.ts:46-47 | `skip offset, take limit`: the elements from the offset on, at most `limit` of them |
| UrlListing.PagesTile | frontend/src/app/api/urls/route.ts:46-47 | adjacent pages neither overlap nor leave gaps |
| UrlListing.ClicksOf | frontend/src/app/api/urls/route.ts:24-41 | the clicks of one link (`_count.clicks` is their number): exactly those whose link id matches, each as often as in the table and in table order |
| UrlListing.RecentPreviews | frontend/src/app/api/urls/route.ts:29-41 | a link's click preview: min(5, its click count) clicks of that link, newest first, no newer click left out; as a multiset it is contained in the previews of all the link's clicks |
| UrlListing.PreviewsSubMultiset | frontend/src/app/api/urls/route.ts:29-41 | previewing a sub-multiset of clicks gives a sub-multiset of their previews |
| UrlListing.PreviewsAreNewest | frontend/src/app/api/urls/route.ts:29-33 | every click of the link newer than the last previewed one is previewed |
| UrlListing.Format | frontend/src/app/api/urls/route.ts:58-69 | a listed link copies the stored fields, counts all its clicks, and its recent clicks are exactly the link's preview as above |
| UrlListing.ListUrls | frontend/src/app/api/urls/route.ts:6-75 | 401 exactly without a session user id; otherwise the page of the user's links newest first, the total count, and `hasMore` exactly when offset plus limit is below the total |
| UrlListing.WholeListInOnePage | frontend/src/app/api/urls/route.ts:46-74 | a first page at least as long as the list holds every link and reports nothing more |
| Auth.MissingEnvVars | frontend/src/lib/auth.ts:8-19 | exactly the required variables that are unset or empty, in declaration order |
| Auth.NothingMissingWhenAllSet | frontend/src/lib/auth.ts:17-19 | with all five variables non-empty nothing is reported |
| Auth.AllMissingWhenNoneSet | frontend/src/lib/auth.ts:8-19 | with an empty environment all five are reported, in order |
| Auth.OrDefault | frontend/src/lib/auth.ts:62-63 | JavaScript's or-default: the value when present and non-empty, the fallback otherwise |
| Auth.SessionCallback | frontend/src/lib/auth.ts:58-70 | a session user gets the user's id, its role or USER, its tier or FREE, all else unchanged; a session without a user is returned as is |
| Auth.SessionRoleNeverEmpty | frontend/src/lib/auth.ts:60-64 | after the callback the session user's role and tier are present and non-empty |
| Auth.EffectiveBaseUrl | frontend/src/lib/auth.ts:75 | `NEXTAUTH_URL` when set and non-empty, the given base otherwise |
| Auth.Redirect | frontend/src/lib/auth.ts:71-99 | the redirect callback of these options as written: sign-in and sign-out URLs go to the base, paths are appended to it, a URL with the base as text prefix is kept, anything else goes to the base; the result always starts with the base. NextAuth's route handler uses its own options and never calls this callback |
| Auth.ApiAlternativesRedundant | frontend/src/lib/auth.ts:78-85 | any URL containing the `/api/auth/...` path contains the `/auth/...` path, so the second disjunct never decides |
| Auth.RedirectOnBase | frontend/src/lib/auth.ts:92-95 | the same-origin branch as its comment says: the result always stays on the base site; sign-in and sign-out URLs go to the base; a path is appended to the base; a URL already on the site is kept; any other URL goes to the base |
| Auth.RedirectOnBaseAgrees | frontend/src/lib/auth.ts:71-99 | the corrected callback equals the written one whenever the written one stays on the site |
| Auth.PrefixTestLeavesSite | frontend/src/lib/auth.ts:92-95 | any URL that continues the base with a character other than `/`, `?` or `#` is kept, and is not on the site |
| Auth.LookalikeHostsKept | frontend/src/lib/auth.ts:93-94 | `https://app.example` followed by `.evil.test/` or by `@evil.test/` is kept for base `https://app.example`, and is not on the site |
| Middleware.AnyPresent | frontend/src/middleware.ts:14-21 | some listed cookie is set with a non-empty value |
| Middleware.Decide | frontend/src/middleware.ts:3-30 | redirect to `/` exactly when the path is one of the two auth pages and a session cookie is set; pass through otherwise |
| Middleware.OnlySessionCookiesCount | frontend/src/middleware.ts:14-23 | setting an unrelated cookie, or a session cookie to the empty string, never causes the redirect |
| Middleware.AnyPatternAt | frontend/src/middleware.ts:42 | some lookahead alternative matches at the start, the dot matching any character |
| Middleware.Matches | frontend/src/middleware.ts:42 | the middleware runs exactly on paths with a leading slash not followed by an excluded alternative |
| Middleware.Handle | frontend/src/middleware.ts:33-44 | unmatched paths always pass through; matched ones get the middleware's decision |
| Middleware.ExcludedPrefixSkipped | frontend/src/middleware.ts:42 | every path that starts with an excluded alternative is skipped, however it continues (`/apiary` too) |
| Middleware.DotIsWildcard | frontend/src/middleware.ts:42 | `/faviconXico` is skipped, the dot being a wildcard |
| Middleware.AuthPagesMatched | frontend/src/middleware.ts:12-42 | both auth pages are matched, so the bounce is reachable |
| Middleware.BounceOnlyFromAuthPages | frontend/src/middleware.ts:12-42 | a request is redirected exactly when it is for an auth page and carries a session cookie |
| Common.EnvOr | frontend/src/lib/config.ts:4 | an environment variable with a default: unset and empty both take the fallback |
| Config.LoadConfig | frontend/src/lib/config.ts:2-11 | each base from its variable unless unset or empty, with the documented defaults; none is ever empty |
| Config.BuildShortUrl | frontend/src/lib/config.ts:14-16 | the short-link base, a slash and the code |
| Config.ShortCodeOf | frontend/src/lib/config.ts:14-16 | the inverse: a URL under the base and a slash gives back its code, any other URL nothing |
| Config.ShortUrlRoundTrip | frontend/src/lib/config.ts:14-16 | every built short URL gives back its code |
| Config.BuildShortUrlInjective | frontend/src/lib/config.ts:14-16 | different codes build different short URLs |
| Config.DefaultsAgreeWithBackend | frontend/src/lib/config.ts:7 | with the default base, the frontend's short URL equals the backend's development-mode short URL |
| Config.BuildApiUrl | frontend/src/lib/config.ts:19-21 | the API base, then the endpoint, with one slash added when it has none |
| Config.LeadingSlashOptional | frontend/src/lib/config.ts:20 | an endpoint with or without its leading slash builds the same URL |
| Dashboard.FormatUrl | frontend/src/app/dashboard/page.tsx:60-65 | a URL of at most 50 characters is shown whole; a longer one as its first 50 plus `...`; never more than 53 characters |
| Dashboard.LongUrlsSharingPrefixLookAlike | frontend/src/app/dashboard/page.tsx:60-65 | long URLs that agree on their first 50 characters display alike |
| Dashboard.ShortUrlsShownWhole | frontend/src/app/dashboard/page.tsx:60-65 | a URL that fits is determined by its display |
| Dashboard.Classify | frontend/src/app/dashboard/page.tsx:71-85 | under an hour (the future included) is just now; under a day, the whole hours 1 to 23; beyond that, the whole days |
| Dashboard.ClassifyMonotone | frontend/src/app/dashboard/page.tsx:71-85 | a later "now" never shows less elapsed time |
| Dashboard.Render | frontend/src/app/dashboard/page.tsx:78-84 | `Just now` only for just now; otherwise the plain numeral of the whole hours or days followed by `h ago` or `d ago` |
| Dashboard.FormatTimeAgo | frontend/src/app/dashboard/page.tsx:71-85 | `Just now` exactly when less than an hour has passed; every text reads back as the elapsed time's classification, so it names the whole hours or days that passed, and its numeral never starts with a zero |
| Dashboard.ParseElapsed | frontend/src/app/dashboard/page.tsx:78-84 | the reading of a rendered text; `Just now` reads as just now and nothing else does |
| Dashboard.RenderRoundTrip | frontend/src/app/dashboard/page.tsx:78-84 | every rendered text reads back as the classification it came from |
| Dashboard.RenderInjective | frontend/src/app/dashboard/page.tsx:78-84 | different classifications never show the same text |
| Common.NatToDecimal | frontend/src/app/dashboard/page.tsx:81 | the numeral of a count: digits only, non-empty, no leading zero; it starts with `0` only for zero |
| Common.DecimalRoundTrip | frontend/src/app/dashboard/page.tsx:81 | reading a rendered numeral gives back the count |

## Left out

- The Redis, Postgres and ORM clients, `InitializeStore` and `CloseStore`: connecting and closing are I/O. A client that was never created is `None`; a storage call that fails is a fault flag.
- `LinkStore.SaveUrlMapping`: allows a store without a cache client, as the nil checks do. `InitializeStore` always creates the Redis client and only logs a failed ping, so after start-up the cache is always `Some` and the save error (and the handler's 500) cannot occur; an unreachable Redis server is every cache call failing.
- The short-code generator and `TrackUrlClick` are not part of this model. The generator is a function parameter; the tracker appears only as the arguments it receives and a failure flag.
- The `details` field of the 500 creation response (the error text of the database driver), and every log line.
- The `updated_at` column set by the conflict update: nothing reads it.
- Both API routes answer 500 when a database query throws. Queries are modelled as total functions, so that branch is not modelled.
- `Analytics.StartDate`: computes `days * 86400000` milliseconds. The source's `setDate` works in the server's local time, so a daylight-saving change in the period shifts the start by an hour.
- `Analytics.ClicksByDay`: uses UTC day windows. The source uses local midnights, while its date labels come from `toISOString`.
- `Analytics.GetAnalytics`: the `days` parameter is an `Option<int>`. `None` stands for both an absent and an empty parameter, since the source falls back with `|| '30'` on either. A non-numeric parameter (`NaN` in the source) is not modelled.
- `UrlListing.ListUrls`: `limit` and `offset` are naturals. `None` stands for both an absent and an empty parameter, since the source falls back with `|| '10'` and `|| '0'` on either. Non-numeric or negative values are not modelled.
- Concurrent requests are not modelled: each operation is atomic. The lost write that `LinkStore.SuccessWithoutStoring` exhibits is sequential.
- `Dashboard.Classify`: uses integer division where the source divides floating-point numbers and takes `Math.floor`. The two agree for differences below 2^53 milliseconds. An unparsable date (`NaN d ago` in the source) is not modelled.
- String lengths are counted in characters, where JavaScript counts UTF-16 code units. `FormatUrl` may therefore cut astral characters differently.
- The `signIn` callback only logs and returns true. The providers, the adapter and the session strategy are NextAuth configuration.
- The options in `frontend/src/app/api/auth/[...nextauth]/route.ts` are not part of this model. They are the ones NextAuth's route handler, the URL listing route and the dashboard layout use; their redirect callback keeps a URL only when its parsed origin equals the base. The options of `lib/auth.ts` modelled here are read only by the analytics route, for `getServerSession`.
- The middleware's matcher ignores the locale and `_next/data` variants that Next.js adds to every matcher.
- `main.go` routing, the scripts, and the rest of the dashboard page (data fetching and markup) are not part of this model.

## Findings

| source | as written | input that shows it | evidently intended | confidence | as-written member | corrected member |
|---|---|---|---|---|---|---|
| frontend/src/lib/auth.ts:92-95 | the "same origin" branch keeps any URL whose text starts with the base URL | base `https://app.example`, url `https://app.example.evil.test/` or `https://app.example@evil.test/`: kept, although the host is another site | keep a URL only when it is the base or continues it with `/`, `?` or `#`. Latent: NextAuth's route handler is built from the options in `app/api/auth/[...nextauth]/route.ts`, which compare parsed origins, so this callback is never called | not executed | Auth.Redirect (shown by Auth.PrefixTestLeavesSite and Auth.LookalikeHostsKept) | Auth.RedirectOnBase |
