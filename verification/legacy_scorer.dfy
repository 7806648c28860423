/** The older heuristic scorer of `scanner/utils.py`: a 0-100 risk level from the shape of
    the host name plus an SSL grade, and the protocol-to-grade mapping of `check_ssl_grade`.
    The live view does not use it; it is a scheme of its own, separate from
    `RiskCalculator`. The TLS handshake is a parameter: the negotiated protocol string, or
    `None` when the connection or the handshake failed. */
module LegacyScorer {
  import opened Wrappers
  import opened Text
  import UrlSplit
  import SslChecker

  const GoodTlds: seq<string> := [".com", ".org", ".edu", ".gov", ".net"]
  const RiskyTlds: seq<string> := [".xyz", ".top", ".loan", ".win", ".club", ".click", ".tk", ".ml"]
  const SuspiciousWords: seq<string> := ["free", "win", "prize", "reward", "click", "limited", "offer"]

  /** The neutral starting score. */
  const BaseScore := 50
  /** The score when the analysis raises. */
  const FailureScore := 65
  /** Host names longer than this are suspicious. */
  const LongHost := 30
  const HttpsPrefix := "https://"

  /** A risky TLD anywhere in the host adds 25 and shadows a good TLD, which subtracts 10. */
  function TldAdjustment(domain: string): (a: int)
    ensures a == 25 <==> ContainsAny(domain, RiskyTlds)
    ensures a == -10 <==> !ContainsAny(domain, RiskyTlds) && ContainsAny(domain, GoodTlds)
    ensures a == 0 <==> !ContainsAny(domain, RiskyTlds) && !ContainsAny(domain, GoodTlds)
  {
    if ContainsAny(domain, RiskyTlds) then 25
    else if ContainsAny(domain, GoodTlds) then -10
    else 0
  }

  /** A host longer than 30 characters adds 15. */
  function LengthAdjustment(domain: string): (a: int)
    ensures a == 15 <==> |domain| > LongHost
    ensures a == 0 <==> |domain| <= LongHost
  {
    if |domain| > LongHost then 15 else 0
  }

  /** A hyphen anywhere in the host adds 10. */
  function HyphenAdjustment(domain: string): (a: int)
    ensures a == 10 <==> '-' in domain
    ensures a == 0 <==> '-' !in domain
  {
    if '-' in domain then 10 else 0
  }

  /** More than two dots counts as too many subdomains. */
  function DotsAdjustment(domain: string): (a: int)
    ensures a == 10 <==> Count(domain, '.') > 2
    ensures a == 0 <==> Count(domain, '.') <= 2
  {
    if Count(domain, '.') > 2 then 10 else 0
  }

  /** One or more suspicious words add 20 once. */
  function KeywordAdjustment(domain: string): (a: int)
    ensures a == 20 <==> ContainsAny(domain, SuspiciousWords)
    ensures a == 0 <==> !ContainsAny(domain, SuspiciousWords)
  {
    if ContainsAny(domain, SuspiciousWords) then 20 else 0
  }

  /** Grade F adds 30, A and A+ subtract 20, any other grade leaves the score alone. */
  function GradeAdjustment(sslGrade: string): (a: int)
    ensures a == 30 <==> sslGrade == "F"
    ensures a == -20 <==> sslGrade == "A" || sslGrade == "A+"
    ensures a == 0 <==> sslGrade != "F" && sslGrade != "A" && sslGrade != "A+"
  {
    if sslGrade == "F" then 30
    else if sslGrade == "A" || sslGrade == "A+" then -20
    else 0
  }

  /** The score before clamping: the neutral score plus each signal's independent adjustment.
      It lies between 20 (a good TLD and grade A, nothing else) and 160 (every penalty). */
  function RawScore(domain: string, sslGrade: string): (raw: int)
    ensures 20 <= raw <= 160
  {
    BaseScore + TldAdjustment(domain) + LengthAdjustment(domain) + HyphenAdjustment(domain)
      + DotsAdjustment(domain) + KeywordAdjustment(domain) + GradeAdjustment(sslGrade)
  }

  /** `max(0, min(100, x))`. */
  function Clamp(x: int): (r: int)
    ensures 0 <= r <= 100
    ensures 0 <= x <= 100 ==> r == x
    ensures x > 100 ==> r == 100
    ensures x < 0 ==> r == 0
  {
    if x > 100 then 100 else if x < 0 then 0 else x
  }

  /** The score of an already parsed host: the clamped raw score of its lower-cased form. */
  function HostScore(netloc: string, sslGrade: string): (r: int)
    ensures 20 <= r <= 100
    ensures sslGrade == "F" ==> r >= 70
    ensures RawScore(Lower(netloc), sslGrade) <= 100 ==> r == RawScore(Lower(netloc), sslGrade)
    ensures RawScore(Lower(netloc), sslGrade) > 100 ==> r == 100
  {
    Clamp(RawScore(Lower(netloc), sslGrade))
  }

  /** `calculate_risk_level`, with the SSL grade it would look up as a parameter. The only
      exception inside its `try` is the `ValueError` of `urlparse`. */
  function CalculateRiskLevel(url: string, sslGrade: string): (r: int)
    ensures 0 <= r <= 100
    ensures UrlSplit.Netloc(url).Err? ==> r == FailureScore
    ensures UrlSplit.Netloc(url).Ok? ==> r == HostScore(UrlSplit.Netloc(url).value, sslGrade)
  {
    match UrlSplit.Netloc(url)
    case Err(_) => FailureScore
    case Ok(netloc) => HostScore(netloc, sslGrade)
  }

  /** The grade adjustment orders the grades: `F` is worst, `A` and `A+` best, the rest
      in between. */
  lemma GradeOrdersRisk(netloc: string, sslGrade: string)
    ensures HostScore(netloc, "A") <= HostScore(netloc, sslGrade) <= HostScore(netloc, "F")
    ensures HostScore(netloc, "A+") == HostScore(netloc, "A")
  {
    assert "A+" != "F" && "A+" != "A";
  }

  /** With no signal at all and a grade other than A, A+ or F, the score is the neutral 50. */
  lemma NeutralHost(netloc: string, sslGrade: string)
    requires forall j :: 0 <= j < |RiskyTlds| ==> !Contains(Lower(netloc), RiskyTlds[j])
    requires forall j :: 0 <= j < |GoodTlds| ==> !Contains(Lower(netloc), GoodTlds[j])
    requires forall j :: 0 <= j < |SuspiciousWords| ==> !Contains(Lower(netloc), SuspiciousWords[j])
    requires |netloc| <= LongHost && '-' !in Lower(netloc) && Count(Lower(netloc), '.') <= 2
    requires sslGrade != "F" && sslGrade != "A" && sslGrade != "A+"
    ensures HostScore(netloc, sslGrade) == BaseScore
  {
    ContainsAnyIff(Lower(netloc), RiskyTlds);
    ContainsAnyIff(Lower(netloc), GoodTlds);
    ContainsAnyIff(Lower(netloc), SuspiciousWords);
  }

  /** A risky TLD always adds 25, whether or not a good TLD also occurs. */
  lemma RiskyTldShadowsGood(domain: string)
    requires exists j :: 0 <= j < |RiskyTlds| && Contains(domain, RiskyTlds[j])
    ensures TldAdjustment(domain) == 25
  {
    ContainsAnyIff(domain, RiskyTlds);
  }

  /** A good TLD subtracts 10 only when no risky TLD occurs. */
  lemma GoodTldAlone(domain: string)
    ensures TldAdjustment(domain) == -10 <==>
              (forall j :: 0 <= j < |RiskyTlds| ==> !Contains(domain, RiskyTlds[j]))
              && (exists j :: 0 <= j < |GoodTlds| && Contains(domain, GoodTlds[j]))
  {
    ContainsAnyIff(domain, RiskyTlds);
    ContainsAnyIff(domain, GoodTlds);
  }

  /** However many suspicious words occur, they add exactly 20; none adds nothing. */
  lemma KeywordsCountOnce(domain: string)
    ensures KeywordAdjustment(domain) == (if exists j :: 0 <= j < |SuspiciousWords| && Contains(domain, SuspiciousWords[j]) then 20 else 0)
  {
    ContainsAnyIff(domain, SuspiciousWords);
  }

  /** An occurrence of `sub` is also an occurrence of every suffix of `sub`. */
  lemma {:induction false} SuffixContained(s: string, sub: string, k: nat)
    requires k <= |sub| && Contains(s, sub)
    ensures Contains(s, sub[k..])
  {
    ContainsIffOccurs(s, sub);
    var i :| OccursAt(s, sub, i);
    assert s[i + k..i + k + |sub[k..]|] == sub[k..];
    assert OccursAt(s, sub[k..], i + k);
    ContainsIffOccurs(s, sub[k..]);
  }

  /** The matching is by substring, so `.win` counts twice: as a risky TLD and, through its
      `win`, as a suspicious word. Such a host never scores under 75. */
  lemma WinCountsTwice(netloc: string, sslGrade: string)
    requires Contains(Lower(netloc), ".win")
    ensures TldAdjustment(Lower(netloc)) == 25 && KeywordAdjustment(Lower(netloc)) == 20
    ensures HostScore(netloc, sslGrade) >= 75
  {
    var domain := Lower(netloc);
    assert RiskyTlds[3] == ".win";
    RiskyTldShadowsGood(domain);
    assert ".win"[1..] == "win";
    SuffixContained(domain, ".win", 1);
    assert SuspiciousWords[1] == "win";
    ContainsAnyIff(domain, SuspiciousWords);
  }

  /** Only the lower-cased host name matters: two URLs whose hosts agree up to case score
      the same. */
  lemma CaseInsensitive(url1: string, url2: string, sslGrade: string)
    requires UrlSplit.Netloc(url1).Ok? && UrlSplit.Netloc(url2).Ok?
    requires Lower(UrlSplit.Netloc(url1).value) == Lower(UrlSplit.Netloc(url2).value)
    ensures CalculateRiskLevel(url1, sslGrade) == CalculateRiskLevel(url2, sslGrade)
  {
  }

  /** `check_ssl_grade`'s protocol table. */
  const ProtocolGrades: map<string, string> :=
    map["TLSv1.3" := "A", "TLSv1.2" := "A", "TLSv1.1" := "B", "TLSv1.0" := "C"]

  /** The grade for a negotiated protocol string, as `check_ssl_grade` maps it. */
  function ProtocolGrade(protocol: string): (r: string)
    ensures SslChecker.IsLetterGrade(r)
  {
    if protocol == "TLSv1.3" || protocol == "TLSv1.2" then "A"
    else if protocol == "TLSv1.1" then "B"
    else if protocol == "TLSv1.0" then "C"
    else "F"
  }

  /** The mapping is the table, with F for any protocol string the table lacks. */
  lemma GradeFollowsTable(protocol: string)
    ensures ProtocolGrade(protocol) == (if protocol in ProtocolGrades then ProtocolGrades[protocol] else "F")
  {
  }

  /** The table is keyed by exact strings: the literal `TLSv1.0` grades C, while the string
      `TLSv1` grades F. */
  lemma ExactProtocolNames()
    ensures ProtocolGrade("TLSv1.0") == "C"
    ensures ProtocolGrade("TLSv1") == "F"
  {
    assert "TLSv1" != "TLSv1.3" && "TLSv1" != "TLSv1.2" && "TLSv1" != "TLSv1.1" && "TLSv1" != "TLSv1.0";
  }

  /** `check_ssl_grade`. A URL that does not start with `https://` is not probed; a
      `urlparse` error and a failed connection or handshake give F. */
  function CheckSslGrade(url: string, negotiated: Option<string>): (r: string)
    ensures SslChecker.IsLetterGrade(r)
    ensures !StartsWith(url, HttpsPrefix) || UrlSplit.Netloc(url).Err? || negotiated.None? ==> r == "F"
    ensures StartsWith(url, HttpsPrefix) && UrlSplit.Netloc(url).Ok? && negotiated.Some?
            ==> r == ProtocolGrade(negotiated.value)
  {
    if !StartsWith(url, HttpsPrefix) then "F"
    else match UrlSplit.Netloc(url)
      case Err(_) => "F"
      case Ok(_) =>
        match negotiated
        case None => "F"
        case Some(protocol) => ProtocolGrade(protocol)
  }

  /** The grade is only ever A, B, C or F, so the `A+` case of the scorer is never reached
      through `check_ssl_grade`. */
  lemma NeverAPlus(url: string, negotiated: Option<string>)
    ensures CheckSslGrade(url, negotiated) != "A+"
  {
  }

  /** `calculate_risk_level` as it runs: the grade comes from `check_ssl_grade` on the same URL. */
  function ScoreUrl(url: string, negotiated: Option<string>): (r: int)
    ensures 0 <= r <= 100
    ensures !StartsWith(url, HttpsPrefix) ==> r >= FailureScore
  {
    var grade := CheckSslGrade(url, negotiated);
    assert !StartsWith(url, HttpsPrefix) ==> grade == "F";
    CalculateRiskLevel(url, grade)
  }
}
