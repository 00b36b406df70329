/** The URL form's submit handler: blank input is refused, input without an
    `http://` or `https://` scheme gets `https://` in front, and the code shown
    is replaced only when the registry returns one. */
module UrlForm {
  import opened Wrappers
  import opened Strings
  import opened Urls
  import opened UrlShortener

  /** `s` starts with `prefix`, letters compared without regard to case (the
      regular expression's `i` flag; `prefix` is written in lower case). */
  predicate StartsWithIgnoringCase(s: string, prefix: string) {
    |prefix| <= |s| && ToLower(s[..|prefix|]) == prefix
  }

  /** The test `/^https?:\/\//i`. */
  predicate HasHttpScheme(s: string) {
    StartsWithIgnoringCase(s, "http://") || StartsWithIgnoringCase(s, "https://")
  }

  /** The string handed to `addUrl` for input `url`. */
  function Normalize(url: string): (r: string)
    ensures HasHttpScheme(url) ==> r == url
    ensures !HasHttpScheme(url) ==> r == "https://" + url
  {
    if HasHttpScheme(url) then url else "https://" + url
  }

  /** A string that starts with `https://` passes the scheme test. */
  lemma HttpsPrefixHasScheme(url: string)
    ensures HasHttpScheme("https://" + url)
  {
    var s := "https://" + url;
    assert s[..|"https://"|] == "https://";
  }

  /** Every normalised string passes the scheme test, so normalising twice
      is normalising once; input is passed through unchanged exactly when it
      already has the scheme. */
  lemma NormalizeIdempotent(url: string)
    ensures HasHttpScheme(Normalize(url))
    ensures Normalize(Normalize(url)) == Normalize(url)
    ensures Normalize(url) == url <==> HasHttpScheme(url)
  {
    if !HasHttpScheme(url) {
      HttpsPrefixHasScheme(url);
      assert |Normalize(url)| > |url|;
    }
  }

  /** The scheme test ignores letter case: "HTTPS://x" is passed through. */
  lemma UpperCaseSchemeKept()
    ensures Normalize("HTTPS://x") == "HTTPS://x"
  {
    assert "HTTPS://x"[..8] == "HTTPS://";
    assert ToLower("HTTPS://") == "https://";
  }

  /** Other schemes are not recognised: "ftp://x" becomes "https://ftp://x". */
  lemma OtherSchemesArePrefixed()
    ensures Normalize("ftp://x") == "https://ftp://x"
  {
    assert "ftp://x"[..7] == "ftp://x";
    assert ToLower("ftp://x")[0] == 'f';
  }

  /** The form's state that outlives a submission: the code on display. */
  class FormState {
    var generatedCode: string

    constructor ()
      ensures generatedCode == ""
    {
      generatedCode := "";
    }

    /** `handleSubmit` for input `url`. `parsed` is what `new URL` gives for
        the normalised string; `id` and `now` are passed to `addUrl`.
        `submitted` is the string handed to `addUrl`, if any. */
    method HandleSubmit(url: string, registry: Registry, parsed: UrlParse, id: string, now: int)
      returns (submitted: Option<string>)
      modifies this, registry
      ensures IsBlank(url) ==> submitted == None && registry.urls == old(registry.urls) &&
                               generatedCode == old(generatedCode)
      ensures !IsBlank(url) ==> submitted == Some(Normalize(url))
      ensures !IsBlank(url) ==>
                exists code :: AddUrlOutcome(old(registry.urls), registry.urls, Normalize(url), parsed, id, now, code) &&
                               generatedCode == (if code != "" then code else old(generatedCode))
    {
      if IsBlank(url) {
        return None;
      }
      var urlToShorten := Normalize(url);
      var code := registry.AddUrl(urlToShorten, parsed, id, now);
      if code != "" {
        generatedCode := code;
      }
      submitted := Some(urlToShorten);
    }
  }
}
