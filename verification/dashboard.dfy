/** The two text formatters of the dashboard page: long URLs are cut to fit
    a table cell, and click times are shown as "Just now", "<n>h ago" or
    "<n>d ago". Times are integer milliseconds since the epoch. */
module Dashboard {
  import opened Common
  import opened Records

  const MaxShownLength: nat := 50
  const Ellipsis := "..."

  /** `formatUrl`: URLs longer than 50 characters keep their first 50 and get
      an ellipsis; shorter ones are shown as they are. */
  function FormatUrl(url: string): (r: string)
    ensures |url| <= MaxShownLength ==> r == url
    ensures |url| > MaxShownLength ==> |r| == MaxShownLength + |Ellipsis| && r[MaxShownLength..] == Ellipsis
    ensures |r| <= MaxShownLength + |Ellipsis|
    ensures r[..Min(|url|, MaxShownLength)] == url[..Min(|url|, MaxShownLength)]
  {
    if |url| > MaxShownLength then url[..MaxShownLength] + Ellipsis else url
  }

  /** Two URLs that agree on their first 50 characters and are both too long
      look the same in the table. */
  lemma LongUrlsSharingPrefixLookAlike(a: string, b: string)
    requires |a| > MaxShownLength && |b| > MaxShownLength
    requires a[..MaxShownLength] == b[..MaxShownLength]
    ensures FormatUrl(a) == FormatUrl(b)
  {
  }

  /** A URL that fits is recognisable again from its display. */
  lemma ShortUrlsShownWhole(a: string, b: string)
    requires |a| <= MaxShownLength && FormatUrl(a) == FormatUrl(b)
    ensures a == b
  {
  }

  /** How long ago something happened, as `formatTimeAgo` classifies it. */
  datatype Elapsed = JustNow | HoursAgo(hours: nat) | DaysAgo(days: nat)

  /** `formatTimeAgo`'s branches: under an hour (including a time in the
      future) is "just now"; under a day counts whole hours; beyond that
      whole days. */
  function Classify(now: int, date: int): (e: Elapsed)
    ensures e.JustNow? <==> now - date < HourMs
    ensures e.HoursAgo? ==>
      && 1 <= e.hours < 24
      && e.hours * HourMs <= now - date < (e.hours + 1) * HourMs
    ensures e.DaysAgo? ==>
      && now - date >= DayMs && e.days >= 1
      && e.days * DayMs <= now - date < (e.days + 1) * DayMs
  {
    var diff := now - date;
    if diff < HourMs then JustNow
    else if diff < DayMs then HoursAgo(diff / HourMs)
    else DaysAgo(diff / DayMs)
  }

  /** Later is never less ago: the classification is monotone in `now`. */
  lemma ClassifyMonotone(now1: int, now2: int, date: int)
    requires now1 <= now2
    ensures Rank(Classify(now1, date)) <= Rank(Classify(now2, date))
  {
  }

  /** An order on classifications: elapsed time in hours, with a day
      counting as 24 hours. */
  function Rank(e: Elapsed): nat {
    match e
    case JustNow => 0
    case HoursAgo(h) => h
    case DaysAgo(d) => 24 * d
  }

  const JustNowText := "Just now"
  const HoursSuffix := "h ago"
  const DaysSuffix := "d ago"

  /** The text shown for a classification. */
  function Render(e: Elapsed): (s: string)
    ensures e.JustNow? <==> s == JustNowText
    ensures e.HoursAgo? ==> |s| > |HoursSuffix| && s[|s| - |HoursSuffix|..] == HoursSuffix
    ensures e.DaysAgo? ==> |s| > |DaysSuffix| && s[|s| - |DaysSuffix|..] == DaysSuffix
    ensures e.HoursAgo? ==> s == NatToDecimal(e.hours) + HoursSuffix
    ensures e.DaysAgo? ==> s == NatToDecimal(e.days) + DaysSuffix
  {
    match e
    case JustNow => JustNowText
    case HoursAgo(h) =>
      var s := NatToDecimal(h) + HoursSuffix;
      assert s[0] != 'J';
      s
    case DaysAgo(d) =>
      var s := NatToDecimal(d) + DaysSuffix;
      assert s[0] != 'J';
      s
  }

  /** `formatTimeAgo`: the text reads back as the elapsed time's
      classification, so it names the whole hours or days that passed. */
  function FormatTimeAgo(now: int, date: int): (s: string)
    ensures s == JustNowText <==> now - date < HourMs
    ensures ParseElapsed(s) == Some(Classify(now, date))
    ensures s != JustNowText ==> s[0] != '0'
  {
    RenderRoundTrip(Classify(now, date));
    Render(Classify(now, date))
  }

  /** Reads a rendered text back: a numeral followed by one of the suffixes,
      or the "just now" text. */
  function ParseElapsed(s: string): (r: Option<Elapsed>)
    ensures r == Some(JustNow) <==> s == JustNowText
  {
    if s == JustNowText then Some(JustNow)
    else if |s| > |HoursSuffix| && s[|s| - |HoursSuffix|..] == HoursSuffix && AllDigits(s[..|s| - |HoursSuffix|]) then
      Some(HoursAgo(DecimalToNat(s[..|s| - |HoursSuffix|])))
    else if |s| > |DaysSuffix| && s[|s| - |DaysSuffix|..] == DaysSuffix && AllDigits(s[..|s| - |DaysSuffix|]) then
      Some(DaysAgo(DecimalToNat(s[..|s| - |DaysSuffix|])))
    else None
  }

  /** Round trip: the displayed text determines the classification. */
  lemma {:induction false} RenderRoundTrip(e: Elapsed)
    ensures ParseElapsed(Render(e)) == Some(e)
  {
    match e
    case JustNow =>
    case HoursAgo(h) =>
      var s := Render(e);
      assert s[..|s| - |HoursSuffix|] == NatToDecimal(h);
      DecimalRoundTrip(h);
    case DaysAgo(d) =>
      var s := Render(e);
      assert s[..|s| - |DaysSuffix|] == NatToDecimal(d);
      assert s[|s| - |HoursSuffix|..] != HoursSuffix by {
        assert s[|s| - 5] == 'd';
      }
      DecimalRoundTrip(d);
  }

  /** Different classifications are displayed differently. */
  lemma RenderInjective(e1: Elapsed, e2: Elapsed)
    requires Render(e1) == Render(e2)
    ensures e1 == e2
  {
    RenderRoundTrip(e1);
    RenderRoundTrip(e2);
  }
}
