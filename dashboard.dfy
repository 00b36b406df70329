/** The dashboard's figures: total clicks, number of links, and the most
    clicked link as the `reduce` with a strict `>` picks it. */
module Dashboard {
  import opened Wrappers
  import opened Seqs
  import opened UrlShortener

  function ClicksOf(u: UrlData): int {
    u.clicks
  }

  /** `urls.reduce((sum, url) => sum + url.clicks, 0)`. */
  function TotalClicks(urls: seq<UrlData>): (r: int)
    ensures r >= 0
  {
    SumOfNonNegative(urls, ClicksOf);
    SumOf(urls, ClicksOf)
  }

  /** `urls.length`. */
  function TotalUrls(urls: seq<UrlData>): nat {
    |urls|
  }

  /** The number of records carrying `shortCode`. */
  function CountWithCode(urls: seq<UrlData>, shortCode: string): nat {
    |Filter(urls, HasCode(shortCode))|
  }

  /** One `recordClick` raises the total by the number of records carrying
      the code (one after a fresh `addUrl`, none for an unknown code), and
      leaves the number of links alone. */
  lemma {:induction false} ClickRaisesTotal(urls: seq<UrlData>, shortCode: string, now: int)
    ensures TotalClicks(Clicked(urls, shortCode, now)) == TotalClicks(urls) + CountWithCode(urls, shortCode)
    ensures TotalUrls(Clicked(urls, shortCode, now)) == TotalUrls(urls)
    decreases |urls|
  {
    if urls != [] {
      var c := Clicked(urls, shortCode, now);
      assert c[1..] == Clicked(urls[1..], shortCode, now);
      ClickRaisesTotal(urls[1..], shortCode, now);
    }
  }

  /** The reduce's step: keep `prev` only when it has strictly more clicks. */
  function Heavier(prev: UrlData, current: UrlData): UrlData {
    if prev.clicks > current.clicks then prev else current
  }

  /** `s[i]` is `m`, no entry has more clicks, and every later entry has fewer. */
  predicate IsLastMaximum(s: seq<UrlData>, i: int, m: UrlData) {
    0 <= i < |s| && s[i] == m &&
    (forall j :: 0 <= j < |s| ==> s[j].clicks <= m.clicks) &&
    (forall j :: i < j < |s| ==> s[j].clicks < m.clicks)
  }

  /** One step of the reduce keeps the claim: the final record's place in
      `[Heavier(prev, rest[0])] + rest[1..]` gives its place in `[prev] + rest`. */
  lemma HeavierStep(prev: UrlData, rest: seq<UrlData>, r: UrlData, i': int)
    requires rest != []
    requires IsLastMaximum([Heavier(prev, rest[0])] + rest[1..], i', r)
    ensures exists i :: IsLastMaximum([prev] + rest, i, r)
  {
    var next := Heavier(prev, rest[0]);
    var s := [prev] + rest;
    var t := [next] + rest[1..];
    assert forall k :: 1 <= k < |t| ==> t[k] == s[k + 1];
    var i := if i' == 0 then (if prev.clicks > rest[0].clicks then 0 else 1) else i' + 1;
    assert t[0] == next && s[0] == prev && s[1] == rest[0];
    forall j | 0 <= j < |s| ensures s[j].clicks <= r.clicks {
      if j >= 2 {
        assert s[j] == t[j - 1];
      }
    }
    forall j | i < j < |s| ensures s[j].clicks < r.clicks {
      if j >= 2 {
        assert s[j] == t[j - 1];
      }
    }
    assert IsLastMaximum(s, i, r);
  }

  /** `rest.reduce(Heavier, prev)`: the record with the most clicks in
      `[prev] + rest`, the last one among equals. */
  function ReduceHeavier(prev: UrlData, rest: seq<UrlData>): (r: UrlData)
    ensures exists i :: IsLastMaximum([prev] + rest, i, r)
    decreases |rest|
  {
    if rest == [] then
      assert IsLastMaximum([prev] + rest, 0, prev);
      prev
    else
      var r := ReduceHeavier(Heavier(prev, rest[0]), rest[1..]);
      var i' :| IsLastMaximum([Heavier(prev, rest[0])] + rest[1..], i', r);
      HeavierStep(prev, rest, r, i');
      r
  }

  /** `mostClicked`: `null` for no links, otherwise the link with the most
      clicks; on a tie the later link wins, since the comparison is strict. */
  function MostClicked(urls: seq<UrlData>): (r: Option<UrlData>)
    ensures r.None? <==> urls == []
    ensures r.Some? ==> exists i :: IsLastMaximum(urls, i, r.value)
  {
    if |urls| > 0 then
      assert [urls[0]] + urls[1..] == urls;
      Some(ReduceHeavier(urls[0], urls[1..]))
    else None
  }

  /** Of two links with equally many clicks, and none with more, the later one
      is reported. */
  lemma LaterOfEqualsWins(a: UrlData, b: UrlData)
    requires a.clicks == b.clicks
    ensures MostClicked([a, b]) == Some(b)
  {
  }
}
