/** The rows the dashboard API reads through its ORM: the `Url` table and the
    `UrlClick` table. Times are integer milliseconds since the epoch. */
module Records {
  import opened Common

  datatype Url = Url(
    id: string,
    shortCode: string,
    originalUrl: string,
    title: Option<string>,
    description: Option<string>,
    userId: Option<string>,
    isActive: bool,
    createdAt: int,
    lastClickAt: Option<int>)

  datatype Click = Click(
    id: string,
    urlId: string,
    clickedAt: int,
    ipAddress: Option<string>,
    country: Option<string>,
    device: Option<string>,
    browser: Option<string>)

  /** The two tables as the API sees them at the moment of a request. */
  datatype Db = Db(urls: seq<Url>, clicks: seq<Click>)

  const HourMs: nat := 1000 * 60 * 60
  const DayMs: nat := 1000 * 60 * 60 * 24

  /** Sort keys for `orderBy: { clickedAt }` and `orderBy: { createdAt }`. */
  function ClickedAtOf(c: Click): int { c.clickedAt }
  function CreatedAtOf(u: Url): int { u.createdAt }

  /** `where: { userId }`: a row owned by the given user. */
  predicate OwnedBy(u: Url, userId: string) {
    u.userId == Some(userId)
  }

  /** The user's links (`url.findMany({ where: { userId } })`): every owned
      row once, in table order, and nothing else. */
  function OwnedUrls(db: Db, userId: string): (r: seq<Url>)
    ensures forall i :: 0 <= i < |r| ==> r[i] in db.urls && OwnedBy(r[i], userId)
    ensures forall i :: 0 <= i < |db.urls| && OwnedBy(db.urls[i], userId) ==> db.urls[i] in r
    ensures |r| == CountWhere(db.urls, (u: Url) => OwnedBy(u, userId))
    ensures IsSubsequence(r, db.urls)
  {
    FilterIsSubsequence(db.urls, (u: Url) => OwnedBy(u, userId));
    Filter(db.urls, (u: Url) => OwnedBy(u, userId))
  }

  /** The ids of some links (`urlIds`). */
  function IdsOf(urls: seq<Url>): set<string> {
    set u | u in urls :: u.id
  }

  /** The session's user id as the API route reads it: `session?.user?.id`.
      The route refuses a request unless this is a non-empty string. */
  function SignedIn(sessionUserId: Option<string>): (b: bool)
    ensures b ==> sessionUserId.Some? && |sessionUserId.value| > 0
    ensures !b ==> sessionUserId == None || sessionUserId == Some("")
  {
    sessionUserId.Some? && sessionUserId.value != ""
  }
}
