/** Certificate grading (scanner/utils/ssl_checker.py). The TLS handshake, the peer
    certificate and the clock are not modelled: their results arrive as a `Probe`. */
module SslChecker {
  import opened Wrappers
  import opened Lookups

  const GradeA := "A"
  const GradeB := "B"
  const GradeC := "C"
  const GradeF := "F"
  const NotAvailable := "N/A"
  const UnknownIssuer := "Unknown"
  const OrganizationName := "organizationName"
  /** `str(KeyError(key))` for the two certificate keys the code indexes. */
  const MissingNotAfter := "'notAfter'"
  const MissingNotBefore := "'notBefore'"

  /** One relative distinguished name of the issuer: its (attribute, value) pairs. */
  type Rdn = seq<(string, string)>

  /** The fields of `getpeercert()` the code reads; each key may be missing. */
  datatype Cert = Cert(notBefore: Option<string>, notAfter: Option<string>, issuer: Option<seq<Rdn>>)

  /** What the network and the clock gave: a failure (DNS, refusal, timeout, handshake), or
      the certificate, `ssock.version()` and the whole days from now to `notAfter`
      (an error message when `notAfter` does not parse). */
  datatype Probe =
    | Failed(reason: string)
    | Connected(cert: Cert, protocol: Option<string>, daysUntilExpiry: Result<int, string>)

  /** `protocol in ['TLSv1', 'TLSv1.1']`; a missing protocol is not in the list. */
  predicate IsOutdatedProtocol(protocol: Option<string>) {
    protocol == Some("TLSv1") || protocol == Some("TLSv1.1")
  }

  predicate IsLetterGrade(g: string) {
    g == GradeA || g == GradeB || g == GradeC || g == GradeF
  }

  /** Severity of a letter grade: A < B < C < F. */
  function Rank(g: string): nat {
    if g == GradeA then 0 else if g == GradeB then 1 else if g == GradeC then 2 else 3
  }

  /** The severity the expiry alone deserves: expired is F, under 30 days is C. */
  function ExpiryRank(daysUntilExpiry: int): nat {
    if daysUntilExpiry <= 0 then 3 else if daysUntilExpiry < 30 then 2 else 0
  }

  /** The severity the protocol alone deserves: TLS 1.0 or 1.1 is B. */
  function ProtocolRank(protocol: Option<string>): nat {
    if IsOutdatedProtocol(protocol) then 1 else 0
  }

  /** `calculate_ssl_grade`. The early returns amount to taking the worse of the expiry
      verdict and the protocol verdict; the certificate itself is never consulted. */
  function CalculateSslGrade(cert: Cert, protocol: Option<string>, daysUntilExpiry: int): (g: string)
    ensures IsLetterGrade(g)
    ensures Rank(g) == if ExpiryRank(daysUntilExpiry) >= ProtocolRank(protocol)
                       then ExpiryRank(daysUntilExpiry) else ProtocolRank(protocol)
  {
    if daysUntilExpiry <= 0 then GradeF
    else if daysUntilExpiry < 30 then GradeC
    else if IsOutdatedProtocol(protocol) then GradeB
    else GradeA
  }

  /** The grading table in priority order: expiry decides first, whatever the protocol;
      only a certificate with 30 days or more is graded on its protocol, and only the
      exact strings `TLSv1` and `TLSv1.1` count as outdated (`TLSv1.0` grades A). */
  lemma GradingPriority(cert: Cert, protocol: Option<string>, days: int)
    ensures days <= 0 ==> CalculateSslGrade(cert, protocol, days) == GradeF
    ensures 0 < days < 30 ==> CalculateSslGrade(cert, protocol, days) == GradeC
    ensures days >= 30 && IsOutdatedProtocol(protocol) ==> CalculateSslGrade(cert, protocol, days) == GradeB
    ensures days >= 30 && !IsOutdatedProtocol(protocol) ==> CalculateSslGrade(cert, protocol, days) == GradeA
    ensures days >= 30 ==> CalculateSslGrade(cert, Some("TLSv1.0"), days) == GradeA
  {
  }

  /** More days before expiry never give a worse grade. */
  lemma GradeMonotoneInDays(cert: Cert, protocol: Option<string>, d1: int, d2: int)
    requires d1 <= d2
    ensures Rank(CalculateSslGrade(cert, protocol, d2)) <= Rank(CalculateSslGrade(cert, protocol, d1))
  {
  }

  /** The grade does not depend on the certificate argument. */
  lemma GradeIgnoresCert(c1: Cert, c2: Cert, protocol: Option<string>, days: int)
    ensures CalculateSslGrade(c1, protocol, days) == CalculateSslGrade(c2, protocol, days)
  {
  }

  /** The `k`-th issuer RDN leads with an `organizationName` attribute. */
  predicate OrgAt(rdns: seq<Rdn>, k: int)
    requires 0 <= k < |rdns|
  {
    |rdns[k]| > 0 && rdns[k][0].0 == OrganizationName
  }

  /** The loop of `get_issuer_name` gets past the first `k` RDNs: none is empty (which would
      raise) and none leads with `organizationName` (which would return). */
  predicate Reaches(rdns: seq<Rdn>, k: int) {
    0 <= k <= |rdns| && forall j :: 0 <= j < k ==> |rdns[j]| > 0 && !OrgAt(rdns, j)
  }

  /** Getting past the first RDN and then `k` more is getting past `k + 1`. */
  lemma ReachesShift(rdns: seq<Rdn>, k: int)
    requires |rdns| > 0 && |rdns[0]| > 0 && !OrgAt(rdns, 0) && 0 <= k < |rdns|
    ensures Reaches(rdns, k + 1) <==> Reaches(rdns[1..], k)
  {
    assert forall j :: 0 <= j < k ==> rdns[1..][j] == rdns[j + 1];
    if Reaches(rdns[1..], k) {
      forall j | 0 <= j < k + 1 ensures |rdns[j]| > 0 && !OrgAt(rdns, j) {
        if j > 0 {
          assert |rdns[1..][j - 1]| > 0 && !OrgAt(rdns[1..], j - 1);
        }
      }
    }
    if Reaches(rdns, k + 1) {
      forall j | 0 <= j < k ensures |rdns[1..][j]| > 0 && !OrgAt(rdns[1..], j) {
        assert |rdns[j + 1]| > 0 && !OrgAt(rdns, j + 1);
      }
    }
  }

  /** The loop of `get_issuer_name`: the value of the first RDN whose first attribute is
      `organizationName`, `Unknown` if there is none, or the `IndexError` raised by
      `field[0][0]` on an empty RDN met before a match. */
  function FirstOrganization(rdns: seq<Rdn>): (r: Result<string, string>)
    ensures forall k :: 0 <= k < |rdns| && Reaches(rdns, k) && OrgAt(rdns, k) ==> r == Ok(rdns[k][0].1)
    ensures Reaches(rdns, |rdns|) ==> r == Ok(UnknownIssuer)
    ensures forall k :: 0 <= k < |rdns| && Reaches(rdns, k) && |rdns[k]| == 0 ==> r.Err?
    ensures r.Err? ==> exists k :: 0 <= k < |rdns| && Reaches(rdns, k) && |rdns[k]| == 0
  {
    if |rdns| == 0 then Ok(UnknownIssuer)
    else if |rdns[0]| == 0 then
      assert Reaches(rdns, 0);
      Err("tuple index out of range")
    else if rdns[0][0].0 == OrganizationName then Ok(rdns[0][0].1)
    else
      var r := FirstOrganization(rdns[1..]);
      assert forall k :: 0 <= k < |rdns| - 1 ==> (Reaches(rdns, k + 1) <==> Reaches(rdns[1..], k)) by {
        forall k | 0 <= k < |rdns| - 1 ensures Reaches(rdns, k + 1) <==> Reaches(rdns[1..], k) {
          ReachesShift(rdns, k);
        }
      }
      assert Reaches(rdns, |rdns|) <==> Reaches(rdns[1..], |rdns| - 1) by {
        ReachesShift(rdns, |rdns| - 1);
      }
      assert forall k :: 1 <= k < |rdns| ==> rdns[k] == rdns[1..][k - 1];
      r
  }

  /** `get_issuer_name`: `Unknown` when the certificate has no issuer or none of its RDNs
      leads with `organizationName`; otherwise the first such value, unless an empty RDN
      comes first. */
  function IssuerName(cert: Cert): (r: Result<string, string>)
    ensures cert.issuer.None? ==> r == Ok(UnknownIssuer)
    ensures cert.issuer.Some? && Reaches(cert.issuer.value, |cert.issuer.value|) ==> r == Ok(UnknownIssuer)
    ensures cert.issuer.Some? ==>
              var rdns := cert.issuer.value;
              && (forall k :: 0 <= k < |rdns| && Reaches(rdns, k) && OrgAt(rdns, k) ==> r == Ok(rdns[k][0].1))
              && (forall k :: 0 <= k < |rdns| && Reaches(rdns, k) && |rdns[k]| == 0 ==> r.Err?)
  {
    match cert.issuer
    case None => Ok(UnknownIssuer)
    case Some(rdns) => FirstOrganization(rdns)
  }

  /** The result of `check_ssl` after any exception: only a grade and the error. */
  function Degraded(message: string): SslData {
    SslData(Some(NotAvailable), None, None, None, None, None, None, Some(message))
  }

  /** `check_ssl`. Each raising step, in the order the code reaches it, degrades the
      result: the missing `notAfter`, its failed parse, the missing `notBefore`, and an
      empty issuer RDN. */
  function CheckSsl(probe: Probe): (r: SslData)
    ensures r.grade.Some?
    ensures r.error.Some? <==> r.grade == Some(NotAvailable)
    ensures r.error.Some? ==> r == Degraded(r.error.value)
    ensures r.error.None? ==>
              && probe.Connected?
              && r.valid == Some(true)
              && IsLetterGrade(r.grade.value)
              && r.protocol == probe.protocol
              && probe.daysUntilExpiry.Ok?
              && r.daysUntilExpiry == Some(probe.daysUntilExpiry.value)
              && r.validTo == probe.cert.notAfter
    ensures probe.Failed? ==> r == Degraded(probe.reason)
    ensures probe.Connected? && probe.cert.notAfter.None? ==> r == Degraded(MissingNotAfter)
    ensures (probe.Connected? && probe.cert.notAfter.Some? && probe.daysUntilExpiry.Err?) ==>
              r == Degraded(probe.daysUntilExpiry.error)
    ensures (probe.Connected? && probe.cert.notAfter.Some? && probe.daysUntilExpiry.Ok?
             && probe.cert.notBefore.None?) ==>
              r == Degraded(MissingNotBefore)
    ensures (probe.Connected? && probe.cert.notAfter.Some? && probe.daysUntilExpiry.Ok?
             && probe.cert.notBefore.Some? && IssuerName(probe.cert).Err?) ==>
              r == Degraded(IssuerName(probe.cert).error)
    ensures (probe.Connected? && probe.cert.notAfter.Some? && probe.daysUntilExpiry.Ok?
             && probe.cert.notBefore.Some? && IssuerName(probe.cert).Ok?) ==>
              && r.error.None?
              && r.grade == Some(CalculateSslGrade(probe.cert, probe.protocol, probe.daysUntilExpiry.value))
              && r.issuer == Some(IssuerName(probe.cert).value)
              && r.validFrom == probe.cert.notBefore
  {
    match probe
    case Failed(reason) => Degraded(reason)
    case Connected(cert, protocol, days) =>
      if cert.notAfter.None? then Degraded(MissingNotAfter)
      else if days.Err? then Degraded(days.error)
      else if cert.notBefore.None? then Degraded(MissingNotBefore)
      else
        match IssuerName(cert)
        case Err(e) => Degraded(e)
        case Ok(issuer) =>
          SslData(
            grade := Some(CalculateSslGrade(cert, protocol, days.value)),
            valid := Some(true),
            validFrom := cert.notBefore,
            validTo := cert.notAfter,
            issuer := Some(issuer),
            daysUntilExpiry := Some(days.value),
            protocol := protocol,
            error := None)
  }
}
