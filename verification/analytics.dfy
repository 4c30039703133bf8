/** `GET /api/analytics?days=`: the signed-in user's link and click totals,
    the top countries and devices of the period, a seven-day click series
    and the most recent clicks. The ORM queries (`count`, `groupBy`,
    `orderBy`, `take`) are modelled as functions over the two tables. */
module Analytics {
  import opened Common
  import opened Records
  import opened Ranking

  const DefaultDays: int := 30
  const TopLimit: nat := 5
  const RecentLimit: nat := 10
  const DaysShown: nat := 7

  /** One row of a `groupBy` result: a value and the number of clicks with it. */
  datatype Group = Group(value: string, count: nat)

  /** One entry of the daily series: a day index and the clicks on that day. */
  datatype DayCount = DayCount(day: int, clicks: nat)

  /** A recent click joined with the short code and target of its link. */
  datatype RecentClick = RecentClick(
    id: string,
    shortCode: string,
    originalUrl: string,
    clickedAt: int,
    country: Option<string>,
    device: Option<string>,
    browser: Option<string>)

  datatype Report = Report(
    totalUrls: nat,
    totalClicks: nat,
    clicksThisPeriod: nat,
    topCountries: seq<Group>,
    topDevices: seq<Group>,
    clicksByDay: seq<DayCount>,
    recentClicks: seq<RecentClick>)

  datatype AnalyticsResponse = Unauthorized | Ok(report: Report) {
    function Status(): nat {
      if Unauthorized? then 401 else 200
    }
  }

  /** The answer for a user without links: all zero, all lists empty (the
      daily series included). */
  const EmptyReport := Report(0, 0, 0, [], [], [], [])

  // ---------------------------------------------------------------------
  // Selections

  /** Clicks on the user's links (`where: { urlId: { in: urlIds } }`): each
      such click once, in table order. */
  function UserClicks(db: Db, userId: string): (r: seq<Click>)
    ensures forall i :: 0 <= i < |r| ==> r[i] in db.clicks && r[i].urlId in IdsOf(OwnedUrls(db, userId))
    ensures OnLinks(r, OwnedUrls(db, userId))
    ensures forall i :: 0 <= i < |db.clicks| && db.clicks[i].urlId in IdsOf(OwnedUrls(db, userId)) ==> db.clicks[i] in r
    ensures |r| == CountWhere(db.clicks, (c: Click) => c.urlId in IdsOf(OwnedUrls(db, userId)))
    ensures IsSubsequence(r, db.clicks)
  {
    var ids := IdsOf(OwnedUrls(db, userId));
    FilterIsSubsequence(db.clicks, (c: Click) => c.urlId in ids);
    Filter(db.clicks, (c: Click) => c.urlId in ids)
  }

  /** `startDate`: `days` whole days before now, 30 when the parameter is
      absent. A negative `days` puts the start in the future. */
  function StartDate(now: int, daysParam: Option<int>): (t: int)
    ensures daysParam.None? ==> t == now - 30 * 24 * 60 * 60 * 1000
    ensures daysParam.Some? ==> now - t == daysParam.value * DayMs
    ensures daysParam.Some? && daysParam.value >= 0 ==> t <= now
    ensures daysParam.Some? && daysParam.value < 0 ==> t > now
  {
    now - daysParam.GetOr(DefaultDays) * DayMs
  }

  /** The period is the last `days` days: a click is counted exactly when it
      is at most `days` whole days old (a click from the future always is). */
  lemma PeriodIsLastDays(cs: seq<Click>, now: int, daysParam: Option<int>, i: int)
    requires 0 <= i < |cs|
    ensures cs[i] in Since(cs, StartDate(now, daysParam)) <==>
      now - cs[i].clickedAt <= daysParam.GetOr(DefaultDays) * DayMs
  {
    var r := Since(cs, StartDate(now, daysParam));
    if cs[i] in r {
      var j :| 0 <= j < |r| && r[j] == cs[i];
    }
  }

  /** More days never count fewer clicks. */
  lemma MoreDaysCountMore(cs: seq<Click>, now: int, d1: int, d2: int)
    requires d1 <= d2
    ensures |Since(cs, StartDate(now, Some(d1)))| <= |Since(cs, StartDate(now, Some(d2)))|
  {
    SinceMonotone(cs, StartDate(now, Some(d2)), StartDate(now, Some(d1)));
  }

  /** Clicks at or after `start` (`clickedAt: { gte: startDate }`): each
      such click once, in order. */
  function Since(cs: seq<Click>, start: int): (r: seq<Click>)
    ensures |r| <= |cs|
    ensures forall i :: 0 <= i < |r| ==> r[i] in cs && r[i].clickedAt >= start
    ensures forall i :: 0 <= i < |cs| && cs[i].clickedAt >= start ==> cs[i] in r
    ensures |r| == CountWhere(cs, (c: Click) => c.clickedAt >= start)
    ensures IsSubsequence(r, cs)
  {
    FilterIsSubsequence(cs, (c: Click) => c.clickedAt >= start);
    Filter(cs, (c: Click) => c.clickedAt >= start)
  }

  /** An earlier start never counts fewer clicks. */
  lemma SinceMonotone(cs: seq<Click>, early: int, late: int)
    requires early <= late
    ensures |Since(cs, late)| <= |Since(cs, early)|
  {
    CountWhereMono(cs, (c: Click) => c.clickedAt >= late, (c: Click) => c.clickedAt >= early);
  }

  // ---------------------------------------------------------------------
  // groupBy ... _count ... orderBy count desc ... take 5

  function CountryOf(c: Click): Option<string> { c.country }
  function DeviceOf(c: Click): Option<string> { c.device }
  function CountOf(g: Group): int { g.count }

  /** Clicks whose field holds exactly `v` (a null field is never counted). */
  function Tally(cs: seq<Click>, field: Click -> Option<string>, v: string): (n: nat)
    ensures n <= |cs|
    ensures n > 0 <==> exists i :: 0 <= i < |cs| && field(cs[i]) == Some(v)
  {
    var holds := (c: Click) => field(c) == Some(v);
    CountWherePositive(cs, holds);
    CountWhere(cs, holds)
  }

  /** The distinct non-null values of a field, each with at least one click. */
  function PresentValues(cs: seq<Click>, field: Click -> Option<string>): (r: seq<string>)
    ensures Distinct(r)
    ensures forall i :: 0 <= i < |r| ==> Tally(cs, field, r[i]) > 0
    ensures forall i :: 0 <= i < |cs| && field(cs[i]).Some? ==> field(cs[i]).value in r
    decreases |cs|
  {
    if |cs| == 0 then []
    else
      var init := cs[..|cs| - 1];
      var r := PresentValues(init, field);
      var f := field(cs[|cs| - 1]);
      assert forall i :: 0 <= i < |init| ==> init[i] == cs[i];
      if f.Some? && f.value !in r then r + [f.value] else r
  }

  function GroupValues(gs: seq<Group>): (r: seq<string>)
    ensures |r| == |gs|
    ensures forall i :: 0 <= i < |gs| ==> r[i] == gs[i].value
  {
    seq(|gs|, i requires 0 <= i < |gs| => gs[i].value)
  }

  predicate DistinctValues(gs: seq<Group>) {
    forall i, j :: 0 <= i < j < |gs| ==> gs[i].value != gs[j].value
  }

  /** The `groupBy` result before ordering: one group per non-null value,
      counted exactly. */
  function GroupCounts(cs: seq<Click>, field: Click -> Option<string>): (r: seq<Group>)
    ensures DistinctValues(r)
    ensures |r| == |PresentValues(cs, field)|
    ensures forall i :: 0 <= i < |r| ==> r[i].count == Tally(cs, field, r[i].value) && r[i].count > 0
    ensures forall i :: 0 <= i < |cs| && field(cs[i]).Some? ==> field(cs[i]).value in GroupValues(r)
  {
    var vals := PresentValues(cs, field);
    var r := seq(|vals|, i requires 0 <= i < |vals| => Group(vals[i], Tally(cs, field, vals[i])));
    assert GroupValues(r) == vals;
    r
  }

  /** `topCountries` / `topDevices`: at most five groups, largest count first,
      each counted exactly, no value twice, and no value left out that has
      more clicks than a listed one. */
  function TopGroups(cs: seq<Click>, field: Click -> Option<string>): (r: seq<Group>)
    ensures |r| == Min(TopLimit, |PresentValues(cs, field)|)
    ensures SortedDesc(r, CountOf)
    ensures forall i :: 0 <= i < |r| ==> r[i].count == Tally(cs, field, r[i].value) && r[i].count > 0
    ensures DistinctValues(r)
    ensures forall k, j :: 0 <= k < |cs| && field(cs[k]).Some? && field(cs[k]).value !in GroupValues(r) && 0 <= j < |r| ==>
      Tally(cs, field, field(cs[k]).value) <= r[j].count
  {
    var gs := GroupCounts(cs, field);
    var r := TopBy(gs, CountOf, TopLimit);
    TopGroupsFacts(cs, field, gs, r);
    r
  }

  lemma TopGroupsFacts(cs: seq<Click>, field: Click -> Option<string>, gs: seq<Group>, r: seq<Group>)
    requires gs == GroupCounts(cs, field)
    requires multiset(r) <= multiset(gs)
    requires Outranks(r, multiset(gs) - multiset(r), CountOf)
    ensures forall i :: 0 <= i < |r| ==> r[i] in gs
    ensures DistinctValues(r)
    ensures forall k, j :: 0 <= k < |cs| && field(cs[k]).Some? && field(cs[k]).value !in GroupValues(r) && 0 <= j < |r| ==>
      Tally(cs, field, field(cs[k]).value) <= r[j].count
  {
    SelectedFromGroups(gs, r);
    SelectedValuesDistinct(gs, r);
    forall k, j | 0 <= k < |cs| && field(cs[k]).Some? && field(cs[k]).value !in GroupValues(r) && 0 <= j < |r|
      ensures Tally(cs, field, field(cs[k]).value) <= r[j].count
    {
      LeftOutRanksLower(cs, field, gs, r, field(cs[k]).value, j);
    }
  }

  lemma SelectedFromGroups(gs: seq<Group>, r: seq<Group>)
    requires multiset(r) <= multiset(gs)
    ensures forall i :: 0 <= i < |r| ==> r[i] in gs
  {
    forall i | 0 <= i < |r| ensures r[i] in gs {
      assert r[i] in multiset(r);
    }
  }

  lemma SelectedValuesDistinct(gs: seq<Group>, r: seq<Group>)
    requires DistinctValues(gs)
    requires multiset(r) <= multiset(gs)
    requires forall i :: 0 <= i < |r| ==> r[i] in gs
    ensures DistinctValues(r)
  {
    assert Distinct(gs);
    SubMultisetOfDistinct(r, gs);
  }

  lemma LeftOutRanksLower(cs: seq<Click>, field: Click -> Option<string>, gs: seq<Group>, r: seq<Group>, v: string, j: int)
    requires gs == GroupCounts(cs, field)
    requires multiset(r) <= multiset(gs)
    requires Outranks(r, multiset(gs) - multiset(r), CountOf)
    requires v in GroupValues(gs) && v !in GroupValues(r) && 0 <= j < |r|
    ensures Tally(cs, field, v) <= r[j].count
  {
    var a :| 0 <= a < |gs| && GroupValues(gs)[a] == v;
    var g := gs[a];
    assert g in multiset(gs);
    assert g !in multiset(r);
    assert g in multiset(gs) - multiset(r);
    assert CountOf(g) <= CountOf(r[j]);
  }

  // ---------------------------------------------------------------------
  // clicksByDay

  /** The day index of a timestamp (whole days since the epoch). */
  function DayOf(t: int): int {
    t / DayMs
  }

  /** Clicks in `[start, start + span)`. */
  function CountBetween(cs: seq<Click>, start: int, span: nat): (n: nat)
    ensures n <= |cs|
  {
    CountWhere(cs, (c: Click) => start <= c.clickedAt < start + span)
  }

  /** A window counts all the clicks when every click falls inside it, and
      none when every click falls outside (an empty window in particular). */
  lemma WindowCountExtremes(cs: seq<Click>, start: int, span: nat)
    ensures (forall i :: 0 <= i < |cs| ==> start <= cs[i].clickedAt < start + span) ==> CountBetween(cs, start, span) == |cs|
    ensures (forall i :: 0 <= i < |cs| ==> !(start <= cs[i].clickedAt < start + span)) ==> CountBetween(cs, start, span) == 0
    ensures span == 0 ==> CountBetween(cs, start, span) == 0
  {
    var inWindow := (c: Click) => start <= c.clickedAt < start + span;
    if forall i :: 0 <= i < |cs| ==> inWindow(cs[i]) {
      FilterAll(cs, inWindow);
    }
    if forall i :: 0 <= i < |cs| ==> !inWindow(cs[i]) {
      CountWhereNone(cs, inWindow);
    }
  }

  /** Seven consecutive days ending with today, oldest first, each counting
      the clicks of its half-open day window. */
  function ClicksByDay(cs: seq<Click>, now: int): (r: seq<DayCount>)
    ensures |r| == DaysShown
    ensures r[DaysShown - 1].day == DayOf(now)
    ensures forall i :: 0 < i < |r| ==> r[i].day == r[i - 1].day + 1
    ensures forall i :: 0 <= i < |r| ==> r[i].clicks == CountBetween(cs, r[i].day * DayMs, DayMs)
  {
    var first := DayOf(now) - (DaysShown - 1);
    seq(DaysShown, i requires 0 <= i < DaysShown => DayCount(first + i, CountBetween(cs, (first + i) * DayMs, DayMs)))
  }

  function SumClicks(ds: seq<DayCount>): nat
    decreases |ds|
  {
    if |ds| == 0 then 0 else SumClicks(ds[..|ds| - 1]) + ds[|ds| - 1].clicks
  }

  /** Consecutive day windows are disjoint: together they count exactly the
      clicks of the whole span. */
  lemma {:induction false} DayWindowsAdd(cs: seq<Click>, ds: seq<DayCount>, first: int)
    requires forall i :: 0 <= i < |ds| ==> ds[i].day == first + i
    requires forall i :: 0 <= i < |ds| ==> ds[i].clicks == CountBetween(cs, ds[i].day * DayMs, DayMs)
    ensures SumClicks(ds) == CountBetween(cs, first * DayMs, |ds| * DayMs)
    decreases |ds|
  {
    if |ds| == 0 {
      CountWhereNone(cs, (c: Click) => first * DayMs <= c.clickedAt < first * DayMs + 0 * DayMs);
    } else {
      var n := |ds| - 1;
      DayWindowsAdd(cs, ds[..n], first);
      var lo := first * DayMs;
      var mid := lo + n * DayMs;
      assert ds[n].day * DayMs == mid;
      CountWhereDisjoint(cs,
        (c: Click) => lo <= c.clickedAt < lo + n * DayMs,
        (c: Click) => mid <= c.clickedAt < mid + DayMs,
        (c: Click) => lo <= c.clickedAt < lo + |ds| * DayMs);
    }
  }

  /** The seven daily counts never add up to more than the total. */
  lemma ClicksByDayWithinTotal(cs: seq<Click>, now: int)
    ensures SumClicks(ClicksByDay(cs, now)) <= |cs|
  {
    var ds := ClicksByDay(cs, now);
    DayWindowsAdd(cs, ds, ds[0].day);
  }

  // ---------------------------------------------------------------------
  // recentClicks

  /** The link a click belongs to (the relation the ORM follows). */
  function LinkOf(urls: seq<Url>, id: string): (u: Url)
    requires id in IdsOf(urls)
    ensures u in urls && u.id == id
    decreases |urls|
  {
    if urls[0].id == id then urls[0]
    else
      assert forall v :: v in urls && v != urls[0] ==> v in urls[1..];
      LinkOf(urls[1..], id)
  }

  /** The ten newest clicks (`orderBy: { clickedAt: 'desc' }, take: 10`). */
  function RecentSelection(cs: seq<Click>): (r: seq<Click>)
    ensures |r| == Min(RecentLimit, |cs|)
    ensures multiset(r) <= multiset(cs)
    ensures SortedDesc(r, ClickedAtOf)
    ensures Outranks(r, multiset(cs) - multiset(r), ClickedAtOf)
    ensures forall i :: 0 <= i < |r| ==> r[i] in cs
  {
    var r := TopBy(cs, ClickedAtOf, RecentLimit);
    SelectionInSource(r, cs);
    r
  }

  /** A click joined with its link. */
  function Joined(c: Click, u: Url): RecentClick {
    RecentClick(c.id, u.shortCode, u.originalUrl, c.clickedAt, c.country, c.device, c.browser)
  }

  /** Each selected click joined with its link, in the same order. */
  function JoinAll(mine: seq<Url>, sel: seq<Click>): (r: seq<RecentClick>)
    requires forall i :: 0 <= i < |sel| ==> sel[i].urlId in IdsOf(mine)
    ensures |r| == |sel|
    ensures forall i :: 0 <= i < |r| ==>
      var u := LinkOf(mine, sel[i].urlId);
      && r[i].id == sel[i].id && r[i].clickedAt == sel[i].clickedAt
      && r[i].country == sel[i].country && r[i].device == sel[i].device && r[i].browser == sel[i].browser
      && r[i].shortCode == u.shortCode && r[i].originalUrl == u.originalUrl
  {
    seq(|sel|, i requires 0 <= i < |sel| => Joined(sel[i], LinkOf(mine, sel[i].urlId)))
  }

  /** `recentClicks`: the newest clicks, newest first, each carrying the
      short code and the target of the link it was made on. */
  function RecentClicks(mine: seq<Url>, cs: seq<Click>): (r: seq<RecentClick>)
    requires OnLinks(cs, mine)
    ensures |r| == |RecentSelection(cs)| <= RecentLimit
    ensures r == JoinAll(mine, RecentSelection(cs))
    ensures forall i, j :: 0 <= i < j < |r| ==> r[i].clickedAt >= r[j].clickedAt
  {
    var sel := RecentSelection(cs);
    var r := JoinAll(mine, sel);
    JoinKeepsOrder(sel, r);
    r
  }

  lemma JoinKeepsOrder(sel: seq<Click>, r: seq<RecentClick>)
    requires SortedDesc(sel, ClickedAtOf)
    requires |r| == |sel| && forall i :: 0 <= i < |r| ==> r[i].clickedAt == sel[i].clickedAt
    ensures forall i, j :: 0 <= i < j < |r| ==> r[i].clickedAt >= r[j].clickedAt
  {
    forall i, j | 0 <= i < j < |r| ensures r[i].clickedAt >= r[j].clickedAt {
      assert ClickedAtOf(sel[i]) >= ClickedAtOf(sel[j]);
    }
  }

  /** Every click belongs to one of the given links. */
  predicate OnLinks(cs: seq<Click>, urls: seq<Url>) {
    forall c :: c in cs ==> c.urlId in IdsOf(urls)
  }

  lemma SelectionInSource(sel: seq<Click>, cs: seq<Click>)
    requires multiset(sel) <= multiset(cs)
    ensures forall i :: 0 <= i < |sel| ==> sel[i] in cs
  {
    forall i | 0 <= i < |sel| ensures sel[i] in cs {
      assert sel[i] in multiset(sel);
    }
  }

  // ---------------------------------------------------------------------
  // The route

  /** `GET`: 401 without a session user id; the empty report for a user
      without links; otherwise the full report. */
  function GetAnalytics(db: Db, sessionUserId: Option<string>, daysParam: Option<int>, now: int): (r: AnalyticsResponse)
    ensures r.Unauthorized? <==> !SignedIn(sessionUserId)
    ensures SignedIn(sessionUserId) && |OwnedUrls(db, sessionUserId.value)| == 0 ==> r == Ok(EmptyReport)
    ensures SignedIn(sessionUserId) && |OwnedUrls(db, sessionUserId.value)| > 0 ==>
      var mine, cs := OwnedUrls(db, sessionUserId.value), UserClicks(db, sessionUserId.value);
      var period := Since(cs, StartDate(now, daysParam));
      && r.report.totalUrls == |mine|
      && r.report.totalClicks == |cs|
      && r.report.clicksThisPeriod == |period| <= r.report.totalClicks
      && r.report.topCountries == TopGroups(period, CountryOf)
      && r.report.topDevices == TopGroups(period, DeviceOf)
      && r.report.clicksByDay == ClicksByDay(cs, now)
      && r.report.recentClicks == RecentClicks(mine, cs)
  {
    if !SignedIn(sessionUserId) then Unauthorized
    else
      var mine := OwnedUrls(db, sessionUserId.value);
      if |mine| == 0 then Ok(EmptyReport)
      else
        var cs := UserClicks(db, sessionUserId.value);
        var period := Since(cs, StartDate(now, daysParam));
        Ok(Report(|mine|, |cs|, |period|,
          TopGroups(period, CountryOf), TopGroups(period, DeviceOf),
          ClicksByDay(cs, now), RecentClicks(mine, cs)))
  }

  /** Whatever `days` is, the daily series of a user with links has seven
      entries and adds up to at most the total click count. */
  lemma ReportShape(db: Db, userId: string, daysParam: Option<int>, now: int)
    requires userId != "" && |OwnedUrls(db, userId)| > 0
    ensures var rep := GetAnalytics(db, Some(userId), daysParam, now).report;
      && |rep.clicksByDay| == DaysShown
      && SumClicks(rep.clicksByDay) <= rep.totalClicks
      && |rep.topCountries| <= TopLimit && |rep.topDevices| <= TopLimit
      && |rep.recentClicks| <= RecentLimit
  {
    ClicksByDayWithinTotal(UserClicks(db, userId), now);
  }
}
