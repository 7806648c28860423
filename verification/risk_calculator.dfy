/** `calculate_risk` (scanner/utils/risk_calculator.py): an additive penalty model over
    the certificate grade, the domain age, the protocol and the expiry countdown. */
module RiskCalculator {
  import opened Wrappers
  import opened Lookups
  import SslChecker
  import opened Numeric

  /** Certificate grade: A costs nothing, B 15, C 30, F and anything else 50. */
  function GradePenalty(grade: string): (p: nat)
    ensures p == 0 <==> grade == SslChecker.GradeA
    ensures p == 15 <==> grade == SslChecker.GradeB
    ensures p == 30 <==> grade == SslChecker.GradeC
    ensures p == 50 <==> grade != SslChecker.GradeA && grade != SslChecker.GradeB && grade != SslChecker.GradeC
  {
    if grade == SslChecker.GradeA then 0
    else if grade == SslChecker.GradeB then 15
    else if grade == SslChecker.GradeC then 30
    else if grade == SslChecker.GradeF then 50
    else 50
  }

  /** Domain age in years: over 5 costs nothing, 3..5 costs 10, 1..2 costs 20, else 30. */
  function AgePenalty(age: int): (p: nat)
    ensures p == 0 <==> age > 5
    ensures p == 10 <==> 2 < age <= 5
    ensures p == 20 <==> 0 < age <= 2
    ensures p == 30 <==> age <= 0
  {
    if age > 5 then 0 else if age > 2 then 10 else if age > 0 then 20 else 30
  }

  /** `TLSv1` or `TLSv1.1` costs 10; any other protocol, or none, costs nothing. */
  function ProtocolPenalty(protocol: Option<string>): (p: nat)
    ensures p == 10 <==> protocol == Some("TLSv1") || protocol == Some("TLSv1.1")
    ensures p == 0 <==> !SslChecker.IsOutdatedProtocol(protocol)
  {
    if SslChecker.IsOutdatedProtocol(protocol) then 10 else 0
  }

  /** Fewer than 15 days before expiry costs 10. */
  function ExpiryPenalty(daysUntilExpiry: int): (p: nat)
    ensures p == 10 <==> daysUntilExpiry < 15
    ensures p == 0 <==> daysUntilExpiry >= 15
  {
    if daysUntilExpiry < 15 then 10 else 0
  }

  /** The sum before clamping, with the code's defaults for missing keys. */
  function RawRisk(ssl: SslData, domain: DomainData): (raw: nat)
    ensures raw <= 100
  {
    GradePenalty(ssl.grade.GetOr(SslChecker.NotAvailable))
    + AgePenalty(domain.age.GetOr(0))
    + ProtocolPenalty(ssl.protocol)
    + ExpiryPenalty(ssl.daysUntilExpiry.GetOr(0))
  }

  /** `calculate_risk`: the raw sum clamped to 1..100. The raw sum never exceeds 100, so
      only the lower clamp can change it, turning 0 into 1. */
  function CalculateRisk(ssl: SslData, domain: DomainData): (risk: int)
    ensures 1 <= risk <= 100
    ensures risk == if RawRisk(ssl, domain) == 0 then 1 else RawRisk(ssl, domain)
  {
    Max(1, Min(100, RawRisk(ssl, domain)))
  }

  /** The least possible score, 1, is reached exactly by grade A, age over 5, a current
      protocol and at least 15 days before expiry. */
  lemma MinimumRiskIff(ssl: SslData, domain: DomainData)
    ensures CalculateRisk(ssl, domain) == 1 <==>
              && ssl.grade == Some(SslChecker.GradeA)
              && domain.age.GetOr(0) > 5
              && !SslChecker.IsOutdatedProtocol(ssl.protocol)
              && ssl.daysUntilExpiry.GetOr(0) >= 15
  {
  }

  /** The score reads four fields and nothing else. */
  lemma DependsOnlyOnSignals(s1: SslData, s2: SslData, d1: DomainData, d2: DomainData)
    requires s1.grade == s2.grade && s1.protocol == s2.protocol && s1.daysUntilExpiry == s2.daysUntilExpiry
    requires d1.age == d2.age
    ensures CalculateRisk(s1, d1) == CalculateRisk(s2, d2)
  {
  }

  /** A missing grade, `N/A`, and any string other than A, B and C all score as F. */
  lemma UnknownGradeScoresAsF(ssl: SslData, domain: DomainData, g: string)
    requires g != SslChecker.GradeA && g != SslChecker.GradeB && g != SslChecker.GradeC
    ensures CalculateRisk(ssl.(grade := Some(g)), domain) == CalculateRisk(ssl.(grade := Some(SslChecker.GradeF)), domain)
    ensures CalculateRisk(ssl.(grade := None), domain) == CalculateRisk(ssl.(grade := Some(SslChecker.GradeF)), domain)
  {
  }

  /** A missing age scores as an age of 0, and so does every age up to 0. */
  lemma UnknownAgeScoresAsZero(ssl: SslData, domain: DomainData, age: int)
    requires age <= 0
    ensures CalculateRisk(ssl, domain.(age := None)) == CalculateRisk(ssl, domain.(age := Some(age)))
  {
  }

  /** An older domain is never riskier. */
  lemma OlderDomainNeverRiskier(ssl: SslData, domain: DomainData, a1: int, a2: int)
    requires a1 <= a2
    ensures CalculateRisk(ssl, domain.(age := Some(a2))) <= CalculateRisk(ssl, domain.(age := Some(a1)))
  {
  }

  /** A later expiry is never riskier. */
  lemma LaterExpiryNeverRiskier(ssl: SslData, domain: DomainData, d1: int, d2: int)
    requires d1 <= d2
    ensures CalculateRisk(ssl.(daysUntilExpiry := Some(d2)), domain) <= CalculateRisk(ssl.(daysUntilExpiry := Some(d1)), domain)
  {
  }

  /** Among letter grades, a less severe grade is never riskier. */
  lemma BetterGradeNeverRiskier(ssl: SslData, domain: DomainData, g1: string, g2: string)
    requires SslChecker.IsLetterGrade(g1) && SslChecker.IsLetterGrade(g2)
    requires SslChecker.Rank(g1) <= SslChecker.Rank(g2)
    ensures CalculateRisk(ssl.(grade := Some(g1)), domain) <= CalculateRisk(ssl.(grade := Some(g2)), domain)
  {
  }

  /** A degraded certificate result costs 50 for the grade and 10 for the defaulted expiry,
      so the score is 60 plus the age penalty: never below 60, and 90 when the age lookup
      failed as well. */
  lemma DegradedCertificateRisk(probe: SslChecker.Probe, domain: DomainData)
    requires SslChecker.CheckSsl(probe).error.Some?
    ensures CalculateRisk(SslChecker.CheckSsl(probe), domain) == 60 + AgePenalty(domain.age.GetOr(0))
    ensures CalculateRisk(SslChecker.CheckSsl(probe), domain) >= 60
    ensures domain.age.None? ==> CalculateRisk(SslChecker.CheckSsl(probe), domain) == 90
  {
  }

  /** A freshly graded certificate pays its grade penalty, plus 10 if its protocol is old
      and 10 if fewer than 15 days remain; grade A with an old domain scores the minimum. */
  lemma GradedCertificateRisk(probe: SslChecker.Probe, domain: DomainData)
    requires SslChecker.CheckSsl(probe).error.None?
    ensures var ssl := SslChecker.CheckSsl(probe);
            var days := probe.daysUntilExpiry.value;
            RawRisk(ssl, domain) ==
              GradePenalty(SslChecker.CalculateSslGrade(probe.cert, probe.protocol, days))
              + AgePenalty(domain.age.GetOr(0)) + ProtocolPenalty(probe.protocol) + ExpiryPenalty(days)
  {
  }

  /** The two worked scenarios: grade A and age 10 clamp up to 1; grade F, unknown age,
      TLSv1 and 5 days add up to exactly 100. */
  lemma Scenarios(ssl: SslData, domain: DomainData)
    ensures (ssl.grade == Some("A") && ssl.daysUntilExpiry == Some(365) && ssl.protocol == Some("TLSv1.3")
             && domain.age == Some(10)) ==> CalculateRisk(ssl, domain) == 1
    ensures (ssl.grade == Some("F") && ssl.daysUntilExpiry == Some(5) && ssl.protocol == Some("TLSv1")
             && domain.age == Some(0)) ==> CalculateRisk(ssl, domain) == 100
  {
  }
}
