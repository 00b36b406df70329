/** The redirect page's effect: go home when the route has no code, follow a
    known code to its URL after counting the click, or show "not found". */
module Redirect {
  import opened Wrappers
  import opened Seqs
  import opened Urls
  import opened UrlShortener

  /** Where the effect sends the browser. */
  datatype Navigation = Home | NotFound | External(url: string)

  /** Which of the three outcomes the effect picks for route parameter
      `shortCode` (absent or empty counts as missing; so does an empty URL). */
  function Decide(shortCode: Option<string>, urls: seq<UrlData>): (nav: Navigation)
    ensures nav == Home <==> shortCode.None? || shortCode.value == ""
    ensures nav.External? ==>
              shortCode.Some? && nav.url != "" && GetOriginalUrl(urls, shortCode.value) == Some(nav.url)
    ensures nav == NotFound <==>
              shortCode.Some? && shortCode.value != "" &&
              (GetOriginalUrl(urls, shortCode.value).None? || GetOriginalUrl(urls, shortCode.value) == Some(""))
  {
    if shortCode.None? || shortCode.value == "" then Home
    else
      match GetOriginalUrl(urls, shortCode.value)
      case Some(u) => if u != "" then External(u) else NotFound
      case None => NotFound
  }

  /** The effect: one of the three outcomes, with a click recorded for the
      code only when the browser is sent on to its URL. */
  method RunRedirect(shortCode: Option<string>, registry: Registry, now: int) returns (nav: Navigation)
    modifies registry
    ensures nav == Decide(shortCode, old(registry.urls))
    ensures nav.External? ==> registry.urls == Clicked(old(registry.urls), shortCode.value, now)
    ensures !nav.External? ==> registry.urls == old(registry.urls)
  {
    if shortCode.None? || shortCode.value == "" {
      return Home;
    }
    var originalUrl := GetOriginalUrl(registry.urls, shortCode.value);
    if originalUrl.Some? && originalUrl.value != "" {
      registry.RecordClick(shortCode.value, now);
      nav := External(originalUrl.value);
    } else {
      nav := NotFound;
    }
  }

  /** Following the code a fresh `addUrl` returned leads to the URL that was
      added, provided the code was not in use before. */
  lemma ShortenThenFollow(before: seq<UrlData>, after: seq<UrlData>, originalUrl: string, p: ParsedUrl,
                          id: string, now: int, code: string)
    requires AddUrlOutcome(before, after, originalUrl, Parsed(p), id, now, code)
    requires FirstIndex(before, HasUrl(originalUrl)).None?
    requires forall i :: 0 <= i < |before| ==> before[i].shortCode != code
    requires code != "" && originalUrl != ""
    ensures Decide(Some(code), after) == External(originalUrl)
  {
    AddThenLookup(before, after, originalUrl, p, id, now, code);
  }
}
