/** The simulated URL security service: four mock providers, each a fixed
    substring heuristic, and the two functions that combine their verdicts. */
module UrlSecurity {
  import opened Strings
  import opened Seqs
  import opened Urls

  datatype CheckResult = CheckResult(safe: bool, threats: seq<string>, source: string)

  /** The threat every provider reports when it cannot parse the URL. */
  const CannotVerify := "Unable to verify URL safety"

  /** The `name` of each provider, in the order the service holds them. */
  const ProviderNames: seq<string> := ["Google Safe Browsing", "VirusTotal", "PhishTank", "Custom AI"]

  const GoogleKeywords: seq<string> := ["phishing", "malware", "suspicious"]
  const VirusTotalKeywords: seq<string> := ["virus", "trojan", "hack"]
  const PhishTankKeywords: seq<string> := ["phish", "scam", "fake"]

  /** The Custom AI provider's pattern list; "verify" is listed twice. */
  const SuspiciousPatterns: seq<string> := [
    "login", "secure", "account", "banking", "verify",
    "paypal", "ebay", "amazon", "microsoft", "apple",
    "password", "update", "alert", "verify", "wallet"
  ]

  /** A verdict is safe exactly when it lists no threat. */
  predicate Consistent(r: CheckResult) {
    r.safe <==> r.threats == []
  }

  /** Google Safe Browsing (simulated): flags hostnames that mention phishing,
      malware or suspicious. */
  function GoogleSafeBrowsingCheck(u: UrlParse): (r: CheckResult)
    ensures Consistent(r)
    ensures ProviderNames[0] <= r.source
    ensures u.Unparsable? ==> !r.safe && r.threats == [CannotVerify]
    ensures u.Parsed? ==> (r.safe <==> !ContainsAny(ToLower(u.url.hostname), GoogleKeywords))
    ensures u.Parsed? && !r.safe ==> r.threats == ["Suspicious domain detected"]
  {
    match u
    case Unparsable => CheckResult(false, [CannotVerify], ProviderNames[0] + " API (error)")
    case Parsed(p) =>
      var hostname := ToLower(p.hostname);
      var isSuspicious := Contains(hostname, "phishing") || Contains(hostname, "malware") ||
                          Contains(hostname, "suspicious");
      CheckResult(!isSuspicious, if isSuspicious then ["Suspicious domain detected"] else [],
                  ProviderNames[0] + " API (simulated)")
  }

  /** VirusTotal (simulated): flags hostnames that mention virus, trojan or hack. */
  function VirusTotalCheck(u: UrlParse): (r: CheckResult)
    ensures Consistent(r)
    ensures ProviderNames[1] <= r.source
    ensures u.Unparsable? ==> !r.safe && r.threats == [CannotVerify]
    ensures u.Parsed? ==> (r.safe <==> !ContainsAny(ToLower(u.url.hostname), VirusTotalKeywords))
    ensures u.Parsed? && !r.safe ==> r.threats == ["Potential malware detected"]
  {
    match u
    case Unparsable => CheckResult(false, [CannotVerify], ProviderNames[1] + " API (error)")
    case Parsed(p) =>
      var hostname := ToLower(p.hostname);
      var isSuspicious := Contains(hostname, "virus") || Contains(hostname, "trojan") ||
                          Contains(hostname, "hack");
      CheckResult(!isSuspicious, if isSuspicious then ["Potential malware detected"] else [],
                  ProviderNames[1] + " API (simulated)")
  }

  /** PhishTank (simulated): flags hostnames that mention phish, scam or fake. */
  function PhishTankCheck(u: UrlParse): (r: CheckResult)
    ensures Consistent(r)
    ensures ProviderNames[2] <= r.source
    ensures u.Unparsable? ==> !r.safe && r.threats == [CannotVerify]
    ensures u.Parsed? ==> (r.safe <==> !ContainsAny(ToLower(u.url.hostname), PhishTankKeywords))
    ensures u.Parsed? && !r.safe ==> r.threats == ["Potential phishing site detected"]
  {
    match u
    case Unparsable => CheckResult(false, [CannotVerify], ProviderNames[2] + " API (error)")
    case Parsed(p) =>
      var hostname := ToLower(p.hostname);
      var isSuspicious := Contains(hostname, "phish") || Contains(hostname, "scam") ||
                          Contains(hostname, "fake");
      CheckResult(!isSuspicious, if isSuspicious then ["Potential phishing site detected"] else [],
                  ProviderNames[2] + " API (simulated)")
  }

  /** The filter predicate of the Custom AI provider: the pattern occurs in the
      lower-cased hostname or in the lower-cased path. */
  function PatternIn(hostname: string, path: string): string -> bool {
    pattern => Contains(hostname, pattern) || Contains(path, pattern)
  }

  /** The entries of the pattern list (with repetitions) that the URL matches. */
  function MatchedPatterns(p: ParsedUrl): seq<string> {
    Filter(SuspiciousPatterns, PatternIn(ToLower(p.hostname), ToLower(p.pathname)))
  }

  /** Custom AI (simulated): flags a URL when at least two list entries match. */
  function CustomAiCheck(u: UrlParse): (r: CheckResult)
    ensures Consistent(r)
    ensures ProviderNames[3] <= r.source
    ensures u.Unparsable? ==> !r.safe && r.threats == [CannotVerify]
    ensures u.Parsed? ==> (r.safe <==> |MatchedPatterns(u.url)| < 2)
    ensures u.Parsed? && !r.safe ==> r.threats == ["AI model detected suspicious patterns"]
  {
    match u
    case Unparsable => CheckResult(false, [CannotVerify], ProviderNames[3] + " (error)")
    case Parsed(p) =>
      var isSuspicious := |MatchedPatterns(p)| >= 2;
      CheckResult(!isSuspicious, if isSuspicious then ["AI model detected suspicious patterns"] else [],
                  ProviderNames[3] + " Model (TF-IDF + Logistic Regression simulation)")
  }

  /** A hostname that mentions "phishing" is flagged by Google Safe Browsing and,
      because "phish" is a prefix of "phishing", by PhishTank as well. */
  lemma PhishingFlaggedTwice(p: ParsedUrl)
    requires Contains(ToLower(p.hostname), "phishing")
    ensures !GoogleSafeBrowsingCheck(Parsed(p)).safe
    ensures !PhishTankCheck(Parsed(p)).safe
  {
    assert "phish" <= "phishing";
    ContainsPrefixOf(ToLower(p.hostname), "phishing", "phish");
  }

  /** The only entry of the pattern list that is repeated is "verify", at
      positions 4 and 13. */
  lemma OnlyVerifyRepeats()
    ensures SuspiciousPatterns[4] == SuspiciousPatterns[13] == "verify"
    ensures forall i, j :: 0 <= i < j < |SuspiciousPatterns| && SuspiciousPatterns[i] == SuspiciousPatterns[j] ==>
              i == 4 && j == 13
  {
  }

  /** "verify" is listed twice, so a URL that mentions it is flagged by the
      Custom AI provider even when no other pattern occurs. */
  lemma VerifyAloneIsFlagged(p: ParsedUrl)
    requires Contains(ToLower(p.hostname), "verify") || Contains(ToLower(p.pathname), "verify")
    ensures !CustomAiCheck(Parsed(p)).safe
  {
    OnlyVerifyRepeats();
    FilterKeepsTwo(SuspiciousPatterns, PatternIn(ToLower(p.hostname), ToLower(p.pathname)), 4, 13);
  }

  /** Two different patterns that both occur make the Custom AI provider flag the URL. */
  lemma TwoPatternsAreFlagged(p: ParsedUrl, k1: string, k2: string)
    requires k1 in SuspiciousPatterns && k2 in SuspiciousPatterns && k1 != k2
    requires Contains(ToLower(p.hostname), k1) || Contains(ToLower(p.pathname), k1)
    requires Contains(ToLower(p.hostname), k2) || Contains(ToLower(p.pathname), k2)
    ensures !CustomAiCheck(Parsed(p)).safe
  {
    var ps := SuspiciousPatterns;
    var i :| 0 <= i < |ps| && ps[i] == k1;
    var j :| 0 <= j < |ps| && ps[j] == k2;
    var m := PatternIn(ToLower(p.hostname), ToLower(p.pathname));
    if i < j {
      FilterKeepsTwo(ps, m, i, j);
    } else {
      FilterKeepsTwo(ps, m, j, i);
    }
  }

  /** Any one pattern other than "verify", occurring alone, leaves the Custom AI
      provider's verdict safe. */
  lemma SinglePatternIsSafe(p: ParsedUrl, k: string)
    requires k in SuspiciousPatterns && k != "verify"
    requires forall w :: w in SuspiciousPatterns ==>
               (Contains(ToLower(p.hostname), w) || Contains(ToLower(p.pathname), w) <==> w == k)
    ensures CustomAiCheck(Parsed(p)).safe
  {
    var ps := SuspiciousPatterns;
    var m := PatternIn(ToLower(p.hostname), ToLower(p.pathname));
    var i :| 0 <= i < |ps| && ps[i] == k;
    OnlyVerifyRepeats();
    forall j | 0 <= j < |ps| && j != i ensures !m(ps[j]) {
      assert ps[j] in ps;
    }
    FilterKeepsOne(ps, m, i);
  }

  /** Every provider lower-cases what it inspects, so the verdicts do not
      depend on the letter case of the hostname or the path. */
  lemma ChecksIgnoreCase(p: ParsedUrl)
    ensures CheckUrlSafety(Parsed(ParsedUrl(ToLower(p.hostname), ToLower(p.pathname)))) == CheckUrlSafety(Parsed(p))
  {
    ToLowerIdempotent(p.hostname);
    ToLowerIdempotent(p.pathname);
  }

  /** `checkUrlSafety`: every provider's verdict, in the providers' fixed order. */
  function CheckUrlSafety(u: UrlParse): (results: seq<CheckResult>)
    ensures |results| == |ProviderNames| == 4
    ensures forall i :: 0 <= i < 4 ==> ProviderNames[i] <= results[i].source
    ensures forall i :: 0 <= i < 4 ==> Consistent(results[i])
  {
    [GoogleSafeBrowsingCheck(u), VirusTotalCheck(u), PhishTankCheck(u), CustomAiCheck(u)]
  }

  /** What `checkUrlSafety`'s `catch` branch returns. No provider throws, so the
      service never reaches it; the value is kept for the lemmas about it. */
  const ServiceFailure: seq<CheckResult> :=
    [CheckResult(false, ["Failed to check URL safety"], "Security Service Error")]

  /** `isUrlSafe`: every verdict is safe (true for no verdicts at all). */
  function IsUrlSafe(results: seq<CheckResult>): (b: bool)
    ensures b <==> forall i :: 0 <= i < |results| ==> results[i].safe
    decreases |results|
  {
    results == [] || (results[0].safe && IsUrlSafe(results[1..]))
  }

  function ThreatCount(r: CheckResult): int {
    |r.threats|
  }

  /** `getAllThreats`: the threat lists joined in order. */
  function GetAllThreats(results: seq<CheckResult>): (threats: seq<string>)
    ensures |threats| == SumOf(results, ThreatCount)
    ensures forall t :: t in threats <==> exists i :: 0 <= i < |results| && t in results[i].threats
    decreases |results|
  {
    if results == [] then []
    else
      assert forall i :: 1 <= i < |results| ==> results[1..][i - 1] == results[i];
      results[0].threats + GetAllThreats(results[1..])
  }

  /** Joining the threats of two verdict lists joins their threat lists. */
  lemma {:induction false} GetAllThreatsAppend(a: seq<CheckResult>, b: seq<CheckResult>)
    ensures GetAllThreats(a + b) == GetAllThreats(a) + GetAllThreats(b)
    decreases |a|
  {
    if a == [] {
      assert a + b == b;
    } else {
      assert (a + b)[1..] == a[1..] + b;
      GetAllThreatsAppend(a[1..], b);
    }
  }

  /** For consistent verdicts, "safe" and "no threats" coincide. */
  lemma {:induction false} SafeIffNoThreats(results: seq<CheckResult>)
    requires forall i :: 0 <= i < |results| ==> Consistent(results[i])
    ensures IsUrlSafe(results) <==> GetAllThreats(results) == []
    decreases |results|
  {
    if results != [] {
      SafeIffNoThreats(results[1..]);
    }
  }

  /** The service's own verdicts, from the providers or from its `catch`
      branch, are safe exactly when they carry no threat. */
  lemma ServiceVerdictMatchesThreats(u: UrlParse)
    ensures IsUrlSafe(CheckUrlSafety(u)) <==> GetAllThreats(CheckUrlSafety(u)) == []
    ensures !IsUrlSafe(ServiceFailure) && GetAllThreats(ServiceFailure) == ["Failed to check URL safety"]
  {
    SafeIffNoThreats(CheckUrlSafety(u));
  }

  /** The combined verdict on a parsed URL: no provider's keywords occur in the
      hostname and fewer than two list entries match. */
  lemma ServiceVerdictOnParsed(p: ParsedUrl)
    ensures IsUrlSafe(CheckUrlSafety(Parsed(p))) <==>
              !ContainsAny(ToLower(p.hostname), GoogleKeywords) &&
              !ContainsAny(ToLower(p.hostname), VirusTotalKeywords) &&
              !ContainsAny(ToLower(p.hostname), PhishTankKeywords) &&
              |MatchedPatterns(p)| < 2
  {
    var u := Parsed(p);
    var rs := CheckUrlSafety(u);
    assert rs[0] == GoogleSafeBrowsingCheck(u) && rs[1] == VirusTotalCheck(u);
    assert rs[2] == PhishTankCheck(u) && rs[3] == CustomAiCheck(u);
  }

  /** An unparsable URL is unsafe, with one "Unable to verify" threat per provider. */
  lemma ServiceVerdictOnUnparsable()
    ensures !IsUrlSafe(CheckUrlSafety(Unparsable))
    ensures GetAllThreats(CheckUrlSafety(Unparsable)) == [CannotVerify, CannotVerify, CannotVerify, CannotVerify]
  {
    var rs := CheckUrlSafety(Unparsable);
    assert rs[1..][1..][1..][1..] == [];
  }
}
