/** The security badge: which of its three states is shown and the lines of
    its tooltip. */
module SecurityBadge {
  import opened Wrappers
  import opened Seqs
  import opened Urls
  import opened UrlSecurity

  /** The badge's input: the service's overall verdict and its results (the
      check time is only displayed). */
  datatype SecurityStatus = SecurityStatus(safe: bool, results: seq<CheckResult>)

  /** What is shown: "Not Checked", "Safe" with one line per result, or
      "Unsafe" with the threats. */
  datatype Badge = NotChecked | Safe(lines: seq<string>) | Unsafe(threats: seq<string>)

  function NoThreatsLine(r: CheckResult): string {
    r.source + ": No threats detected"
  }

  function NonEmpty(s: string): bool {
    s != ""
  }

  /** `results.flatMap(result => result.threats).filter(Boolean)`. */
  function ShownThreats(results: seq<CheckResult>): (r: seq<string>)
    ensures forall t :: t in r <==> t != "" && exists i :: 0 <= i < |results| && t in results[i].threats
    ensures forall t :: multiset(r)[t] == if t != "" then multiset(GetAllThreats(results))[t] else 0
    ensures IsSubsequence(r, GetAllThreats(results))
  {
    FilterMultiset(GetAllThreats(results), NonEmpty);
    FilterIsSubsequence(GetAllThreats(results), NonEmpty);
    Filter(GetAllThreats(results), NonEmpty)
  }

  /** The badge for an optional status; Safe or Unsafe follows the stored
      `safe` flag alone, whatever the results say. */
  function BadgeOf(status: Option<SecurityStatus>): (b: Badge)
    ensures b == NotChecked <==> status.None?
    ensures b.Safe? <==> status.Some? && status.value.safe
    ensures b.Safe? ==> |b.lines| == |status.value.results| &&
                        forall i :: 0 <= i < |b.lines| ==>
                          b.lines[i] == status.value.results[i].source + ": No threats detected"
    ensures b.Unsafe? ==> b.threats == ShownThreats(status.value.results)
  {
    match status
    case None => NotChecked
    case Some(s) =>
      if s.safe then Safe(Map(s.results, NoThreatsLine)) else Unsafe(ShownThreats(s.results))
  }

  predicate ThreatsNonEmpty(r: CheckResult) {
    forall t :: t in r.threats ==> t != ""
  }

  /** A result that is safe with no threats, or reports one non-empty message. */
  lemma SingleMessage(r: CheckResult, msg: string)
    requires Consistent(r)
    requires r.safe || r.threats == [msg] || r.threats == [CannotVerify]
    requires msg != ""
    ensures ThreatsNonEmpty(r)
  {
  }

  /** Every threat the four providers report is a non-empty string. */
  lemma ProviderThreatsNonEmpty(u: UrlParse)
    ensures forall i :: 0 <= i < |CheckUrlSafety(u)| ==> ThreatsNonEmpty(CheckUrlSafety(u)[i])
  {
    SingleMessage(GoogleSafeBrowsingCheck(u), "Suspicious domain detected");
    SingleMessage(VirusTotalCheck(u), "Potential malware detected");
    SingleMessage(PhishTankCheck(u), "Potential phishing site detected");
    SingleMessage(CustomAiCheck(u), "AI model detected suspicious patterns");
    var rs := CheckUrlSafety(u);
    forall i | 0 <= i < |rs| ensures ThreatsNonEmpty(rs[i]) {
      if i == 0 {
        assert rs[0] == GoogleSafeBrowsingCheck(u);
      } else if i == 1 {
        assert rs[1] == VirusTotalCheck(u);
      } else if i == 2 {
        assert rs[2] == PhishTankCheck(u);
      } else {
        assert rs[3] == CustomAiCheck(u);
      }
    }
  }

  /** For a status whose flag is the verdict of its own results, each safe
      exactly when it reports no threats and reporting only non-empty
      messages, the badge reads Safe exactly when there are no threats, and
      an Unsafe badge lists every threat in order. */
  lemma BadgeOfOwnVerdict(rs: seq<CheckResult>)
    requires forall i :: 0 <= i < |rs| ==> Consistent(rs[i]) && ThreatsNonEmpty(rs[i])
    ensures BadgeOf(Some(SecurityStatus(IsUrlSafe(rs), rs))).Safe? <==> GetAllThreats(rs) == []
    ensures !IsUrlSafe(rs) ==> BadgeOf(Some(SecurityStatus(false, rs))) == Unsafe(GetAllThreats(rs))
  {
    SafeIffNoThreats(rs);
    var all := GetAllThreats(rs);
    forall j | 0 <= j < |all| ensures NonEmpty(all[j]) {
      assert all[j] in all;
      var i :| 0 <= i < |rs| && all[j] in rs[i].threats;
      assert ThreatsNonEmpty(rs[i]);
    }
    FilterKeepsAll(all, NonEmpty);
  }

  /** The same for the service's own results on any URL. */
  lemma ServiceBadge(u: UrlParse)
    ensures BadgeOf(Some(SecurityStatus(IsUrlSafe(CheckUrlSafety(u)), CheckUrlSafety(u)))).Safe? <==>
            GetAllThreats(CheckUrlSafety(u)) == []
    ensures !IsUrlSafe(CheckUrlSafety(u)) ==>
              BadgeOf(Some(SecurityStatus(false, CheckUrlSafety(u)))) == Unsafe(GetAllThreats(CheckUrlSafety(u)))
  {
    ProviderThreatsNonEmpty(u);
    BadgeOfOwnVerdict(CheckUrlSafety(u));
  }
}
