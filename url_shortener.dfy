/** The link registry of the URL shortener: link records kept in insertion
    order, the random six-character short codes, lookup by code, click
    recording, deletion and the hostname-based categorisation. */
module UrlShortener {
  import opened Wrappers
  import opened Seqs
  import opened Strings
  import opened Urls
  import opened Storage

  datatype UrlCategory = News | SocialMedia | Shopping | Tech | Entertainment | Education | Other

  /** A link record. Times are milliseconds since the epoch; `category` is
      optional because the record type declares it so. */
  datatype UrlData = UrlData(
    id: string,
    originalUrl: string,
    shortCode: string,
    createdAt: int,
    clicks: nat,
    lastClickedAt: Option<int>,
    category: Option<UrlCategory>)

  /** The alphabet short codes are drawn from. */
  const Characters := "ABCDEFGHIJKLMNOPQRSTUVWXYZabcdefghijklmnopqrstuvwxyz0123456789"

  /** What `generateShortCode` can return. */
  predicate IsShortCode(code: string) {
    |code| == 6 && forall i :: 0 <= i < |code| ==> code[i] in Characters
  }

  /** `generateShortCode`: six characters, each picked at random from the
      alphabet (the choice stands for `Math.random`). Nothing checks the code
      against the codes already in use. */
  method GenerateShortCode() returns (code: string)
    ensures IsShortCode(code)
  {
    code := "";
    for i := 0 to 6
      invariant |code| == i
      invariant forall j :: 0 <= j < i ==> code[j] in Characters
    {
      var k :| 0 <= k < |Characters|;
      code := code + [Characters[k]];
    }
  }

  // ---- analyzeUrl's classification ----

  /** The category `analyzeUrl` picks from the hostname: the first rule of the
      if/else chain whose keywords occur, "Other" when none does. */
  function Classify(hostname: string): UrlCategory {
    if ContainsAny(hostname, KeywordsOf(News)) then News
    else if ContainsAny(hostname, KeywordsOf(SocialMedia)) then SocialMedia
    else if ContainsAny(hostname, KeywordsOf(Shopping)) then Shopping
    else if ContainsAny(hostname, KeywordsOf(Tech)) then Tech
    else if ContainsAny(hostname, KeywordsOf(Entertainment)) then Entertainment
    else if ContainsAny(hostname, KeywordsOf(Education)) then Education
    else Other
  }

  /** The keyword list of each rule of the chain ("Other" has none). */
  function KeywordsOf(c: UrlCategory): seq<string> {
    match c
    case News => ["news", "nytimes", "cnn", "bbc"]
    case SocialMedia => ["facebook", "twitter", "instagram", "linkedin"]
    case Shopping => ["amazon", "ebay", "walmart", "etsy", "shop"]
    case Tech => ["github", "stackoverflow", "dev", "tech"]
    case Entertainment => ["youtube", "netflix", "hulu", "spotify"]
    case Education => ["edu", "course", "learn", "academy"]
    case Other => []
  }

  /** The position of each category's rule in the chain. */
  function Rank(c: UrlCategory): nat {
    match c
    case News => 0
    case SocialMedia => 1
    case Shopping => 2
    case Tech => 3
    case Entertainment => 4
    case Education => 5
    case Other => 6
  }

  /** The classification is the first rule, in chain order, one of whose
      keywords occurs in the hostname; it is "Other" exactly when no keyword
      of any rule occurs. */
  lemma ClassifyIsFirstMatchingRule(hostname: string)
    ensures Classify(hostname) != Other ==> ContainsAny(hostname, KeywordsOf(Classify(hostname)))
    ensures forall d :: Rank(d) < Rank(Classify(hostname)) ==> !ContainsAny(hostname, KeywordsOf(d))
  {
  }

  /** A rule earlier in the chain wins: a hostname that mentions both "news"
      and "github" is News, not Tech. */
  lemma EarlierRuleWins(hostname: string)
    requires Contains(hostname, "news") && Contains(hostname, "github")
    ensures Classify(hostname) == News
  {
    assert "news" in KeywordsOf(News);
  }

  // ---- the pure parts of the registry operations ----

  function HasUrl(url: string): UrlData -> bool {
    (r: UrlData) => r.originalUrl == url
  }

  function HasCode(shortCode: string): UrlData -> bool {
    (r: UrlData) => r.shortCode == shortCode
  }

  function IdIsNot(id: string): UrlData -> bool {
    (r: UrlData) => r.id != id
  }

  /** `getOriginalUrl`: the original URL of the first record with this code,
      or `null` when there is none. */
  function GetOriginalUrl(urls: seq<UrlData>, shortCode: string): (r: Option<string>)
    ensures r.None? <==> forall i :: 0 <= i < |urls| ==> urls[i].shortCode != shortCode
    ensures r.Some? ==>
              exists i :: 0 <= i < |urls| && urls[i].shortCode == shortCode && r.value == urls[i].originalUrl &&
                          forall j :: 0 <= j < i ==> urls[j].shortCode != shortCode
  {
    match FirstIndex(urls, HasCode(shortCode))
    case None => None
    case Some(i) => Some(urls[i].originalUrl)
  }

  /** The record `addUrl` builds before `analyzeUrl` re-categorises it. */
  function NewRecord(id: string, originalUrl: string, shortCode: string, now: int): UrlData {
    UrlData(id, originalUrl, shortCode, now, 0, None, Some(Other))
  }

  function ClickIfMatch(shortCode: string, now: int): UrlData -> UrlData {
    (r: UrlData) => if r.shortCode == shortCode then r.(clicks := r.clicks + 1, lastClickedAt := Some(now)) else r
  }

  /** The list after `recordClick(shortCode)` at time `now`. */
  function Clicked(urls: seq<UrlData>, shortCode: string, now: int): (r: seq<UrlData>)
    ensures |r| == |urls|
    ensures forall i :: 0 <= i < |urls| && urls[i].shortCode == shortCode ==>
              r[i] == urls[i].(clicks := urls[i].clicks + 1, lastClickedAt := Some(now))
    ensures forall i :: 0 <= i < |urls| && urls[i].shortCode != shortCode ==> r[i] == urls[i]
  {
    Map(urls, ClickIfMatch(shortCode, now))
  }

  /** Recording a click never lowers a count, and keeps every record's id,
      URL, code and position. */
  lemma ClicksNeverDecrease(urls: seq<UrlData>, shortCode: string, now: int)
    ensures forall i :: 0 <= i < |urls| ==>
              Clicked(urls, shortCode, now)[i].clicks >= urls[i].clicks &&
              Clicked(urls, shortCode, now)[i].(clicks := 0, lastClickedAt := None) ==
                urls[i].(clicks := 0, lastClickedAt := None)
  {
  }

  /** The list after one `recordClick(shortCode)` per entry of `times`, in order. */
  function ClickedAt(urls: seq<UrlData>, shortCode: string, times: seq<int>): seq<UrlData>
    decreases |times|
  {
    if times == [] then urls
    else ClickedAt(Clicked(urls, shortCode, times[0]), shortCode, times[1..])
  }

  /** After K clicks on a code, each record with that code has K more clicks
      and the time of the last click; every other record is as it was. */
  lemma {:induction false} RepeatedClicks(urls: seq<UrlData>, shortCode: string, times: seq<int>)
    ensures |ClickedAt(urls, shortCode, times)| == |urls|
    ensures forall i :: 0 <= i < |urls| && urls[i].shortCode == shortCode ==>
              ClickedAt(urls, shortCode, times)[i].clicks == urls[i].clicks + |times| &&
              ClickedAt(urls, shortCode, times)[i].lastClickedAt ==
                (if times == [] then urls[i].lastClickedAt else Some(times[|times| - 1]))
    ensures forall i :: 0 <= i < |urls| && urls[i].shortCode != shortCode ==>
              ClickedAt(urls, shortCode, times)[i] == urls[i]
    decreases |times|
  {
    if times != [] {
      var next := Clicked(urls, shortCode, times[0]);
      RepeatedClicks(next, shortCode, times[1..]);
      assert forall i :: 0 <= i < |urls| ==> next[i].shortCode == urls[i].shortCode;
      if |times| > 1 {
        assert times[1..][|times[1..]| - 1] == times[|times| - 1];
      }
    }
  }

  /** The list after `deleteUrl(id)`. */
  function WithoutId(urls: seq<UrlData>, id: string): seq<UrlData> {
    Filter(urls, IdIsNot(id))
  }

  /** Deleting removes exactly the records with that id, keeps the others in
      order and with their multiplicities, and is a no-op for an absent id. */
  lemma DeleteRemovesExactlyThatId(urls: seq<UrlData>, id: string)
    ensures forall r :: r in WithoutId(urls, id) <==> r in urls && r.id != id
    ensures forall r: UrlData :: r.id != id ==> multiset(WithoutId(urls, id))[r] == multiset(urls)[r]
    ensures IsSubsequence(WithoutId(urls, id), urls)
    ensures (forall i :: 0 <= i < |urls| ==> urls[i].id != id) ==> WithoutId(urls, id) == urls
  {
    FilterMultiset(urls, IdIsNot(id));
    FilterIsSubsequence(urls, IdIsNot(id));
    if forall i :: 0 <= i < |urls| ==> urls[i].id != id {
      FilterKeepsAll(urls, IdIsNot(id));
    }
  }

  function SetCategoryIf(id: string, category: UrlCategory): UrlData -> UrlData {
    (r: UrlData) => if r.id == id then r.(category := Some(category)) else r
  }

  /** The list after `categorizeUrl(id, category)`. */
  function Categorized(urls: seq<UrlData>, id: string, category: UrlCategory): (r: seq<UrlData>)
    ensures |r| == |urls|
    ensures forall i :: 0 <= i < |urls| && urls[i].id == id ==> r[i] == urls[i].(category := Some(category))
    ensures forall i :: 0 <= i < |urls| && urls[i].id != id ==> r[i] == urls[i]
  {
    Map(urls, SetCategoryIf(id, category))
  }

  /** No two records carry the same original URL. */
  predicate DistinctUrls(urls: seq<UrlData>) {
    forall i, j :: 0 <= i < j < |urls| ==> urls[i].originalUrl != urls[j].originalUrl
  }

  /** How `addUrl` relates the list before, the list after and the returned
      code: an unparsable URL gives "" and no change; a stored URL gives the
      first such record's code and no change; otherwise a fresh record is
      appended, under the code `generateShortCode` produced, and then
      categorised from its hostname by `analyzeUrl`. */
  ghost predicate AddUrlOutcome(before: seq<UrlData>, after: seq<UrlData>, originalUrl: string, parsed: UrlParse,
                                id: string, now: int, code: string)
  {
    match parsed
    case Unparsable => code == "" && after == before
    case Parsed(p) =>
      match FirstIndex(before, HasUrl(originalUrl))
      case Some(i) => code == before[i].shortCode && after == before
      case None =>
        after == Categorized(before + [NewRecord(id, originalUrl, code, now)], id, Classify(p.hostname))
  }

  /** With a fresh id (what `uuidv4` provides), adding a new URL appends one
      record at the end, with no clicks and the hostname's category, and
      leaves every earlier record as it was. */
  lemma AddFreshUrlAppendsOne(before: seq<UrlData>, after: seq<UrlData>, originalUrl: string, p: ParsedUrl,
                              id: string, now: int, code: string)
    requires AddUrlOutcome(before, after, originalUrl, Parsed(p), id, now, code)
    requires FirstIndex(before, HasUrl(originalUrl)).None?
    requires forall i :: 0 <= i < |before| ==> before[i].id != id
    ensures after == before + [UrlData(id, originalUrl, code, now, 0, None, Some(Classify(p.hostname)))]
  {
    var appended := before + [NewRecord(id, originalUrl, code, now)];
    assert after == Categorized(appended, id, Classify(p.hostname));
    FreshRecordCategorized(before, NewRecord(id, originalUrl, code, now), Classify(p.hostname));
  }

  /** Categorising the id of a record appended last, when no earlier record
      has that id, touches only that record. */
  lemma FreshRecordCategorized(before: seq<UrlData>, r: UrlData, category: UrlCategory)
    requires forall i :: 0 <= i < |before| ==> before[i].id != r.id
    ensures Categorized(before + [r], r.id, category) == before + [r.(category := Some(category))]
  {
    var appended := before + [r];
    var c := Categorized(appended, r.id, category);
    assert forall i :: 0 <= i < |before| ==> appended[i] == before[i];
    assert c[|before|] == r.(category := Some(category));
  }

  /** Looking up the code a fresh `addUrl` returned gives back the URL,
      provided no earlier record already used that code. */
  lemma AddThenLookup(before: seq<UrlData>, after: seq<UrlData>, originalUrl: string, p: ParsedUrl,
                      id: string, now: int, code: string)
    requires AddUrlOutcome(before, after, originalUrl, Parsed(p), id, now, code)
    requires FirstIndex(before, HasUrl(originalUrl)).None?
    requires forall i :: 0 <= i < |before| ==> before[i].shortCode != code
    ensures GetOriginalUrl(after, code) == Some(originalUrl)
  {
    var appended := before + [NewRecord(id, originalUrl, code, now)];
    CategorizedKeepsLinks(appended, id, Classify(p.hostname));
    assert forall i :: 0 <= i < |before| ==> after[i].shortCode == before[i].shortCode;
    assert after[|before|].originalUrl == originalUrl && after[|before|].shortCode == code;
  }

  /** Categorising changes no record's URL or code. */
  lemma CategorizedKeepsLinks(urls: seq<UrlData>, id: string, category: UrlCategory)
    ensures forall i :: 0 <= i < |urls| ==>
              Categorized(urls, id, category)[i].originalUrl == urls[i].originalUrl &&
              Categorized(urls, id, category)[i].shortCode == urls[i].shortCode
  {
  }

  /** Submitting the same URL again returns the code of the first submission
      and adds nothing. */
  lemma AddSameUrlTwice(before: seq<UrlData>, mid: seq<UrlData>, after: seq<UrlData>, originalUrl: string,
                        p: ParsedUrl, id1: string, now1: int, code1: string, id2: string, now2: int, code2: string)
    requires AddUrlOutcome(before, mid, originalUrl, Parsed(p), id1, now1, code1)
    requires AddUrlOutcome(mid, after, originalUrl, Parsed(p), id2, now2, code2)
    ensures code2 == code1 && after == mid
  {
    match FirstIndex(before, HasUrl(originalUrl))
    case Some(i) =>
    case None =>
      var appended := before + [NewRecord(id1, originalUrl, code1, now1)];
      assert forall i :: 0 <= i < |before| ==> mid[i].originalUrl == before[i].originalUrl;
      assert mid[|before|].originalUrl == originalUrl && mid[|before|].shortCode == code1;
      assert FirstIndex(mid, HasUrl(originalUrl)) == Some(|before|);
  }

  /** `addUrl` never stores a second record for a URL it already holds, so a
      list without duplicate URLs keeps that property. */
  lemma AddUrlKeepsUrlsDistinct(before: seq<UrlData>, after: seq<UrlData>, originalUrl: string, parsed: UrlParse,
                                id: string, now: int, code: string)
    requires AddUrlOutcome(before, after, originalUrl, parsed, id, now, code)
    requires DistinctUrls(before)
    ensures DistinctUrls(after)
    ensures |after| <= |before| + 1
  {
    if parsed.Parsed? && FirstIndex(before, HasUrl(originalUrl)).None? {
      var appended := before + [NewRecord(id, originalUrl, code, now)];
      assert forall i :: 0 <= i < |appended| ==> after[i].originalUrl == appended[i].originalUrl;
    }
  }

  // ---- the registry ----

  /** The URL shortener's state: the link records, in the order they were added. */
  class Registry {
    var urls: seq<UrlData>

    /** The initial list: the saved records, or none when nothing is saved or
        the saved value does not parse. */
    constructor (saved: Stored<seq<UrlData>>)
      ensures urls == Restore(saved, [])
    {
      urls := Restore(saved, []);
    }

    /** `addUrl`: `parsed` is what `new URL(originalUrl)` gives; `id` and `now`
        stand for `uuidv4()` and `new Date()`. */
    method AddUrl(originalUrl: string, parsed: UrlParse, id: string, now: int) returns (code: string)
      modifies this
      ensures AddUrlOutcome(old(urls), urls, originalUrl, parsed, id, now, code)
      ensures parsed.Unparsable? ==> code == "" && urls == old(urls)
      ensures parsed.Parsed? && FirstIndex(old(urls), HasUrl(originalUrl)).None? ==> IsShortCode(code)
      ensures parsed.Parsed? && FirstIndex(old(urls), HasUrl(originalUrl)).None? &&
              (forall i :: 0 <= i < |old(urls)| ==> old(urls)[i].id != id) ==>
                urls == old(urls) + [UrlData(id, originalUrl, code, now, 0, None, Some(Classify(parsed.url.hostname)))]
    {
      if parsed.Unparsable? {
        return "";
      }
      var existing := FirstIndex(urls, HasUrl(originalUrl));
      if existing.Some? {
        return urls[existing.value].shortCode;
      }
      code := GenerateShortCode();
      var newUrl := NewRecord(id, originalUrl, code, now);
      urls := urls + [newUrl];
      AnalyzeUrl(newUrl.id, parsed);
      if forall i :: 0 <= i < |old(urls)| ==> old(urls)[i].id != id {
        AddFreshUrlAppendsOne(old(urls), urls, originalUrl, parsed.url, id, now, code);
      }
    }

    /** `recordClick`. */
    method RecordClick(shortCode: string, now: int)
      modifies this
      ensures urls == Clicked(old(urls), shortCode, now)
    {
      urls := Clicked(urls, shortCode, now);
    }

    /** `deleteUrl`. */
    method DeleteUrl(id: string)
      modifies this
      ensures urls == WithoutId(old(urls), id)
    {
      urls := WithoutId(urls, id);
    }

    /** `categorizeUrl`. */
    method CategorizeUrl(id: string, category: UrlCategory)
      modifies this
      ensures urls == Categorized(old(urls), id, category)
    {
      urls := Categorized(urls, id, category);
    }

    /** `analyzeUrl`: re-categorises the record from the URL's hostname; when
        the URL does not parse it logs the error and changes nothing. */
    method AnalyzeUrl(id: string, parsed: UrlParse)
      modifies this
      ensures parsed.Parsed? ==> urls == Categorized(old(urls), id, Classify(parsed.url.hostname))
      ensures parsed.Unparsable? ==> urls == old(urls)
    {
      if parsed.Parsed? {
        CategorizeUrl(id, Classify(parsed.url.hostname));
      }
    }
  }
}
