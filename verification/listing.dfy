/** `GET /api/urls?limit=&offset=`: one page of the signed-in user's links,
    newest first, each with its click count and its five newest clicks, plus
    the total number of links and whether more pages follow. */
module UrlListing {
  import opened Common
  import opened Records
  import opened Ranking

  const DefaultLimit: nat := 10
  const DefaultOffset: nat := 0
  const PreviewLimit: nat := 5

  /** The fields of a click that the listing selects. */
  datatype ClickPreview = ClickPreview(
    clickedAt: int,
    ipAddress: Option<string>,
    country: Option<string>,
    device: Option<string>,
    browser: Option<string>)

  /** One link as the listing returns it. */
  datatype UrlRecord = UrlRecord(
    id: string,
    shortCode: string,
    originalUrl: string,
    title: Option<string>,
    description: Option<string>,
    isActive: bool,
    clickCount: nat,
    createdAt: int,
    lastClickAt: Option<int>,
    recentClicks: seq<ClickPreview>)

  datatype Listing = Listing(urls: seq<UrlRecord>, totalCount: nat, hasMore: bool)

  datatype ListResponse = Unauthorized | Ok(listing: Listing) {
    function Status(): nat {
      if Unauthorized? then 401 else 200
    }
  }

  /** `orderBy: { createdAt: 'desc' }` over all of the given links. */
  function NewestFirst(urls: seq<Url>): (r: seq<Url>)
    ensures multiset(r) == multiset(urls)
    ensures SortedDesc(r, CreatedAtOf)
  {
    TopBy(urls, CreatedAtOf, |urls|)
  }

  /** `skip: offset, take: limit` */
  function PageOf<T>(xs: seq<T>, offset: nat, limit: nat): (r: seq<T>)
    ensures |r| == if offset >= |xs| then 0 else Min(limit, |xs| - offset)
    ensures forall i :: 0 <= i < |r| ==> r[i] == xs[offset + i]
  {
    if offset >= |xs| then [] else xs[offset..offset + Min(limit, |xs| - offset)]
  }

  /** Pages laid side by side neither overlap nor leave gaps. */
  lemma PagesTile<T>(xs: seq<T>, offset: nat, a: nat, b: nat)
    ensures PageOf(xs, offset, a) + PageOf(xs, offset + a, b) == PageOf(xs, offset, a + b)
  {
    var p, q, pq := PageOf(xs, offset, a), PageOf(xs, offset + a, b), PageOf(xs, offset, a + b);
    assert |p + q| == |pq|;
    forall i | 0 <= i < |pq| ensures (p + q)[i] == pq[i] {
      if i >= |p| {
        assert (p + q)[i] == q[i - |p|];
      }
    }
  }

  /** The clicks made on one link. */
  function ClicksOf(cs: seq<Click>, urlId: string): (r: seq<Click>)
    ensures |r| == CountWhere(cs, (c: Click) => c.urlId == urlId)
    ensures forall i :: 0 <= i < |r| ==> r[i] in cs && r[i].urlId == urlId
    ensures forall i :: 0 <= i < |cs| && cs[i].urlId == urlId ==> cs[i] in r
    ensures IsSubsequence(r, cs)
  {
    FilterIsSubsequence(cs, (c: Click) => c.urlId == urlId);
    Filter(cs, (c: Click) => c.urlId == urlId)
  }

  function PreviewOf(c: Click): ClickPreview {
    ClickPreview(c.clickedAt, c.ipAddress, c.country, c.device, c.browser)
  }

  /** `clicks: { take: 5, orderBy: { clickedAt: 'desc' } }` for one link. */
  function RecentPreviews(cs: seq<Click>, urlId: string): (r: seq<ClickPreview>)
    ensures |r| == Min(PreviewLimit, |ClicksOf(cs, urlId)|)
    ensures forall i, j :: 0 <= i < j < |r| ==> r[i].clickedAt >= r[j].clickedAt
    ensures forall i :: 0 <= i < |r| ==> exists k :: 0 <= k < |cs| && cs[k].urlId == urlId && r[i] == PreviewOf(cs[k])
    ensures |r| > 0 ==> forall k :: 0 <= k < |cs| && cs[k].urlId == urlId && cs[k].clickedAt > r[|r| - 1].clickedAt ==> PreviewOf(cs[k]) in r
    ensures multiset(r) <= multiset(Previews(ClicksOf(cs, urlId)))
  {
    var mine := ClicksOf(cs, urlId);
    var top := TopBy(mine, ClickedAtOf, PreviewLimit);
    var r := Previews(top);
    PreviewFacts(cs, urlId, mine, top, r);
    PreviewsAreNewest(cs, urlId, mine, top, r);
    PreviewsSubMultiset(top, mine);
    r
  }

  function Previews(top: seq<Click>): (r: seq<ClickPreview>)
    ensures |r| == |top| && forall i :: 0 <= i < |r| ==> r[i] == PreviewOf(top[i])
  {
    seq(|top|, i requires 0 <= i < |top| => PreviewOf(top[i]))
  }

  lemma PreviewsAppend(a: seq<Click>, b: seq<Click>)
    ensures Previews(a + b) == Previews(a) + Previews(b)
  {
    var l, r := Previews(a + b), Previews(a) + Previews(b);
    forall i | 0 <= i < |l| ensures l[i] == r[i] {
      if i >= |a| {
        assert (a + b)[i] == b[i - |a|];
      }
    }
  }

  /** Taking some of the clicks (each at most as often as it occurs) takes
      some of their previews. */
  lemma {:induction false} PreviewsSubMultiset(top: seq<Click>, mine: seq<Click>)
    requires multiset(top) <= multiset(mine)
    ensures multiset(Previews(top)) <= multiset(Previews(mine))
    decreases |top|
  {
    if |top| > 0 {
      var init, x := top[..|top| - 1], top[|top| - 1];
      assert top == init + [x];
      assert x in multiset(mine);
      var i :| 0 <= i < |mine| && mine[i] == x;
      var rest := RemoveAt(mine, i);
      forall y ensures multiset(init)[y] <= multiset(rest)[y] {
        assert multiset(top)[y] <= multiset(mine)[y];
      }
      PreviewsSubMultiset(init, rest);
      PreviewsAppend(init, [x]);
      assert Previews([x]) == [PreviewOf(x)];
      PreviewsRemovedAt(mine, i);
      var p := PreviewOf(x);
      forall y ensures multiset(Previews(top))[y] <= multiset(Previews(mine))[y] {
        assert multiset(Previews(top))[y] == multiset(Previews(init))[y] + multiset{p}[y];
        assert multiset(Previews(mine))[y] == multiset(Previews(rest))[y] + multiset{p}[y];
      }
    }
  }

  lemma PreviewsRemovedAt(xs: seq<Click>, i: nat)
    requires i < |xs|
    ensures multiset(Previews(xs)) == multiset(Previews(RemoveAt(xs, i))) + multiset{PreviewOf(xs[i])}
  {
    var before, after := xs[..i], xs[i + 1..];
    assert xs == before + [xs[i]] + after;
    PreviewsAppend(before + [xs[i]], after);
    PreviewsAppend(before, [xs[i]]);
    PreviewsAppend(before, after);
    assert Previews([xs[i]]) == [PreviewOf(xs[i])];
  }

  lemma PreviewFacts(cs: seq<Click>, urlId: string, mine: seq<Click>, top: seq<Click>, r: seq<ClickPreview>)
    requires forall i :: 0 <= i < |mine| ==> mine[i] in cs && mine[i].urlId == urlId
    requires multiset(top) <= multiset(mine)
    requires SortedDesc(top, ClickedAtOf)
    requires |r| == |top| && forall i :: 0 <= i < |r| ==> r[i] == PreviewOf(top[i])
    ensures forall i, j :: 0 <= i < j < |r| ==> r[i].clickedAt >= r[j].clickedAt
    ensures forall i :: 0 <= i < |r| ==> exists k :: 0 <= k < |cs| && cs[k].urlId == urlId && r[i] == PreviewOf(cs[k])
  {
    forall i, j | 0 <= i < j < |r| ensures r[i].clickedAt >= r[j].clickedAt {
      assert ClickedAtOf(top[i]) >= ClickedAtOf(top[j]);
    }
    forall i | 0 <= i < |r| ensures exists k :: 0 <= k < |cs| && cs[k].urlId == urlId && r[i] == PreviewOf(cs[k]) {
      assert top[i] in multiset(top);
      assert top[i] in mine;
      var m :| 0 <= m < |mine| && mine[m] == top[i];
      var k :| 0 <= k < |cs| && cs[k] == mine[m];
      assert r[i] == PreviewOf(cs[k]);
    }
  }

  lemma PreviewsAreNewest(cs: seq<Click>, urlId: string, mine: seq<Click>, top: seq<Click>, r: seq<ClickPreview>)
    requires forall i :: 0 <= i < |cs| && cs[i].urlId == urlId ==> cs[i] in mine
    requires multiset(top) <= multiset(mine)
    requires Outranks(top, multiset(mine) - multiset(top), ClickedAtOf)
    requires |r| == |top| && forall i :: 0 <= i < |r| ==> r[i] == PreviewOf(top[i])
    ensures |r| > 0 ==> forall k :: 0 <= k < |cs| && cs[k].urlId == urlId && cs[k].clickedAt > r[|r| - 1].clickedAt ==> PreviewOf(cs[k]) in r
  {
    if |r| > 0 {
      forall k | 0 <= k < |cs| && cs[k].urlId == urlId && cs[k].clickedAt > r[|r| - 1].clickedAt
        ensures PreviewOf(cs[k]) in r
      {
        var x := cs[k];
        assert x in multiset(mine);
        assert x in multiset(mine) - multiset(top) ==> ClickedAtOf(x) <= ClickedAtOf(top[|top| - 1]);
        assert x !in multiset(mine) - multiset(top);
        assert x in multiset(top);
        var i :| 0 <= i < |top| && top[i] == x;
        assert r[i] == PreviewOf(x);
      }
    }
  }

  /** One link of the response: its own fields copied, plus the number of
      all its clicks and its newest clicks. */
  function Format(u: Url, cs: seq<Click>): (r: UrlRecord)
    ensures r.id == u.id && r.shortCode == u.shortCode && r.originalUrl == u.originalUrl
    ensures r.title == u.title && r.description == u.description && r.isActive == u.isActive
    ensures r.createdAt == u.createdAt && r.lastClickAt == u.lastClickAt
    ensures r.clickCount == CountWhere(cs, (c: Click) => c.urlId == u.id)
    ensures |r.recentClicks| <= PreviewLimit && |r.recentClicks| <= r.clickCount
    ensures r.recentClicks == RecentPreviews(cs, u.id)
  {
    UrlRecord(u.id, u.shortCode, u.originalUrl, u.title, u.description, u.isActive,
      |ClicksOf(cs, u.id)|, u.createdAt, u.lastClickAt, RecentPreviews(cs, u.id))
  }

  /** The route: 401 without a session user id; otherwise the page at
      `offset` (default 0) of at most `limit` (default 10) links of the user,
      newest first, with the total count and whether more links follow. */
  function ListUrls(db: Db, sessionUserId: Option<string>, limitParam: Option<nat>, offsetParam: Option<nat>): (r: ListResponse)
    ensures r.Unauthorized? <==> !SignedIn(sessionUserId)
    ensures r.Ok? ==>
      var mine := OwnedUrls(db, sessionUserId.value);
      var limit, offset := limitParam.GetOr(DefaultLimit), offsetParam.GetOr(DefaultOffset);
      var page := PageOf(NewestFirst(mine), offset, limit);
      && r.listing.totalCount == |mine|
      && (r.listing.hasMore <==> offset + limit < |mine|)
      && |r.listing.urls| == |page|
      && (forall i :: 0 <= i < |page| ==> page[i] in mine && r.listing.urls[i] == Format(page[i], db.clicks))
      && (forall i, j :: 0 <= i < j < |page| ==> r.listing.urls[i].createdAt >= r.listing.urls[j].createdAt)
  {
    if !SignedIn(sessionUserId) then Unauthorized
    else
      var mine := OwnedUrls(db, sessionUserId.value);
      var limit, offset := limitParam.GetOr(DefaultLimit), offsetParam.GetOr(DefaultOffset);
      var sorted := NewestFirst(mine);
      var page := PageOf(sorted, offset, limit);
      var records := seq(|page|, i requires 0 <= i < |page| => Format(page[i], db.clicks));
      ListingFacts(mine, sorted, offset, limit, page);
      Ok(Listing(records, |mine|, offset + limit < |mine|))
  }

  lemma ListingFacts(mine: seq<Url>, sorted: seq<Url>, offset: nat, limit: nat, page: seq<Url>)
    requires multiset(sorted) == multiset(mine) && SortedDesc(sorted, CreatedAtOf)
    requires page == PageOf(sorted, offset, limit)
    ensures forall i :: 0 <= i < |page| ==> page[i] in mine
    ensures forall i, j :: 0 <= i < j < |page| ==> page[i].createdAt >= page[j].createdAt
  {
    forall i | 0 <= i < |page| ensures page[i] in mine {
      assert page[i] == sorted[offset + i];
      assert sorted[offset + i] in multiset(mine);
    }
    forall i, j | 0 <= i < j < |page| ensures page[i].createdAt >= page[j].createdAt {
      assert CreatedAtOf(sorted[offset + i]) >= CreatedAtOf(sorted[offset + j]);
    }
  }

  /** A page that starts at 0 and is at least as long as the user's list
      holds every one of the user's links and says that nothing follows. */
  lemma WholeListInOnePage(db: Db, userId: string, limit: nat)
    requires userId != ""
    requires limit >= |OwnedUrls(db, userId)|
    ensures var r := ListUrls(db, Some(userId), Some(limit), None);
      && !r.listing.hasMore
      && |r.listing.urls| == r.listing.totalCount == |OwnedUrls(db, userId)|
  {
  }
}
