/** The analytics page's figures: the five most clicked links and the bar
    chart built from them, total clicks, clicks grouped by link age, and the
    latest creation time. */
module Analytics {
  import opened Wrappers
  import opened Seqs
  import opened Grouping
  import opened UrlShortener
  import opened Dashboard

  function NegClicks(u: UrlData): int {
    -(u.clicks as int)
  }

  /** `[...urls].sort((a, b) => b.clicks - a.clicks)`: most clicks first,
      equal counts in list order. */
  function SortedUrls(urls: seq<UrlData>): seq<UrlData> {
    SortBy(urls, NegClicks)
  }

  /** `sortedUrls.slice(0, 5)`. */
  function TopUrls(urls: seq<UrlData>): seq<UrlData> {
    Take(SortedUrls(urls), 5)
  }

  /** The top list has min(5, n) links, in non-increasing click order, all
      taken from the list. */
  lemma TopUrlsAreOrdered(urls: seq<UrlData>)
    ensures |TopUrls(urls)| == if |urls| < 5 then |urls| else 5
    ensures forall i, j :: 0 <= i < j < |TopUrls(urls)| ==> TopUrls(urls)[i].clicks >= TopUrls(urls)[j].clicks
    ensures multiset(TopUrls(urls)) <= multiset(urls)
  {
    var s := SortedUrls(urls);
    TakeSorted(s, NegClicks, 5);
    var t := Take(s, 5);
    assert forall i, j :: 0 <= i < j < |t| ==> NegClicks(t[i]) <= NegClicks(t[j]);
  }

  /** Every link left out of the top list has no more clicks than any link shown. */
  lemma TopUrlsDominateTheRest(urls: seq<UrlData>)
    ensures forall x, y :: x in multiset(urls) - multiset(TopUrls(urls)) && y in TopUrls(urls) ==>
              x.clicks <= y.clicks
  {
    var s := SortedUrls(urls);
    PrefixDominates(s, NegClicks, 5);
    assert multiset(s) == multiset(urls);
  }

  /** Links with the same number of clicks keep their list order in the sorted copy. */
  lemma SortedUrlsStable(urls: seq<UrlData>, clicks: nat)
    ensures Filter(SortedUrls(urls), KeyIs(NegClicks, -(clicks as int))) == Filter(urls, KeyIs(NegClicks, -(clicks as int)))
  {
    SortByStable(urls, NegClicks, -(clicks as int));
  }

  /** One bar of the bar chart. */
  datatype BarDatum = BarDatum(name: string, clicks: nat, url: string)

  function ToBar(u: UrlData): BarDatum {
    BarDatum(u.shortCode, u.clicks, u.originalUrl)
  }

  /** `barChartData`: one bar per top link, in the same order. */
  function BarChartData(urls: seq<UrlData>): (r: seq<BarDatum>)
    ensures |r| == |TopUrls(urls)|
    ensures forall i :: 0 <= i < |r| ==>
              r[i].name == TopUrls(urls)[i].shortCode && r[i].clicks == TopUrls(urls)[i].clicks &&
              r[i].url == TopUrls(urls)[i].originalUrl
  {
    Map(TopUrls(urls), ToBar)
  }

  /** The age buckets of `clicksByAge`. */
  datatype AgeGroup = Today | ThisWeek | ThisMonth | Older

  function Label(g: AgeGroup): string {
    match g
    case Today => "Today"
    case ThisWeek => "This Week"
    case ThisMonth => "This Month"
    case Older => "Older"
  }

  const DayMillis: int := 1000 * 60 * 60 * 24

  /** The bucket of a link created at `createdAt`, at time `now` (both in
      milliseconds): whole days elapsed, rounded down, under 1, under 7,
      under 30, or more. */
  function AgeOf(now: int, createdAt: int): (g: AgeGroup)
    ensures g == Today <==> now - createdAt < DayMillis
    ensures g == ThisWeek <==> DayMillis <= now - createdAt < 7 * DayMillis
    ensures g == ThisMonth <==> 7 * DayMillis <= now - createdAt < 30 * DayMillis
    ensures g == Older <==> 30 * DayMillis <= now - createdAt
  {
    var ageInDays := (now - createdAt) / DayMillis;
    if ageInDays < 1 then Today
    else if ageInDays < 7 then ThisWeek
    else if ageInDays < 30 then ThisMonth
    else Older
  }

  function AgeKey(now: int): UrlData -> AgeGroup {
    (u: UrlData) => AgeOf(now, u.createdAt)
  }

  /** `clicksByAge` as the `reduce` builds it, its entries in insertion order. */
  method ClicksByAge(urls: seq<UrlData>, now: int) returns (r: seq<(AgeGroup, int)>)
    ensures r == Groups(urls, AgeKey(now), ClicksOf)
  {
    r := GroupSum(urls, AgeKey(now), ClicksOf);
  }

  /** The age buckets hold every click exactly once, and a bucket appears,
      once, exactly when some link falls into it. */
  lemma ClicksByAgeAccountsForAll(urls: seq<UrlData>, now: int)
    ensures SumOf(Groups(urls, AgeKey(now), ClicksOf), Amount) == TotalClicks(urls)
    ensures Distinct(Keys(urls, AgeKey(now)))
    ensures forall g :: g in Keys(urls, AgeKey(now)) <==>
              exists i :: 0 <= i < |urls| && AgeOf(now, urls[i].createdAt) == g
  {
    GroupsSumToTotal(urls, AgeKey(now), ClicksOf);
    KeysAreTheDistinctKeys(urls, AgeKey(now));
  }

  function CreatedAtOf(u: UrlData): int {
    u.createdAt
  }

  /** `Math.max(...urls.map(url => url.createdAt))`, or nothing ("No URLs
      yet") for an empty list. */
  function LatestCreated(urls: seq<UrlData>): (r: Option<int>)
    ensures r.None? <==> urls == []
    ensures r.Some? ==> (exists i :: 0 <= i < |urls| && urls[i].createdAt == r.value) &&
                        forall i :: 0 <= i < |urls| ==> urls[i].createdAt <= r.value
    decreases |urls|
  {
    if urls == [] then None
    else
      match LatestCreated(urls[1..])
      case None => Some(urls[0].createdAt)
      case Some(m) =>
        assert forall i :: 1 <= i < |urls| ==> urls[i] == urls[1..][i - 1];
        Some(if urls[0].createdAt > m then urls[0].createdAt else m)
  }
}
