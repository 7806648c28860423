/** `scan_url` (scanner/views.py) as a pure function. The request body, the certificate
    probe, the domain-age lookup and the database write are parameters. */
module Views {
  import opened Wrappers
  import opened Text
  import opened Lookups
  import UrlSplit
  import UrlParser
  import SslChecker
  import RiskCalculator
  import Models
  import opened Numeric

  /** The `url` entry of the decoded JSON body. */
  datatype UrlField =
    | Absent                      // no `url` key: `.get` yields ''
    | UrlString(text: string)
    | NotString(message: string)  // null, a number, a list...: `.strip()` raises AttributeError

  /** The request body as `json.loads` and `data.get` see it. */
  datatype Request =
    | Unparseable(message: string)   // json.loads raised; its errors are ValueErrors
    | NotAnObject(message: string)   // valid JSON that is not an object: `.get` raises AttributeError
    | Body(url: UrlField)

  /** What the database write (`super().save()`) did. */
  datatype Store = Stored(id: int) | StoreFailed(message: string)

  datatype ResponseBody =
    | ErrorBody(error: string)
    | ScanBody(riskLevel: int, riskCategory: string, sslGrade: string, domainAge: int,
               domain: string, scanId: int, message: string)

  /** The HTTP status and JSON body, with the row written, if any. */
  datatype Response = Response(status: int, body: ResponseBody, saved: Option<Models.ScanRecord>)

  const UrlRequired := "URL is required"
  const InternalErrorPrefix := "Internal server error: "
  const Completed := "Scan completed and saved to database"

  /** The view's own copy of the category thresholds: 80 and up critical, 60 and up high,
      30 and up medium, else low. */
  function ViewCategory(riskLevel: int): (c: Models.RiskCategory)
    ensures c == Models.Critical <==> riskLevel >= 80
    ensures c == Models.High <==> 60 <= riskLevel < 80
    ensures c == Models.Medium <==> 30 <= riskLevel < 60
    ensures c == Models.Low <==> riskLevel < 30
  {
    if riskLevel >= 80 then Models.Critical
    else if riskLevel >= 60 then Models.High
    else if riskLevel >= 30 then Models.Medium
    else Models.Low
  }

  /** The view's threshold table and the one `ScanResult.save` re-applies agree everywhere. */
  lemma CategoryTablesAgree(riskLevel: int)
    ensures ViewCategory(riskLevel) == Models.SaveCategory(riskLevel)
  {
  }

  /** A `ValueError` becomes a 400 carrying its message, anything else a 500 whose message
      is prefixed with "Internal server error: ". */
  function Failure(isValueError: bool, message: string): (r: Response)
    ensures r.saved.None? && r.body.ErrorBody?
    ensures r.status == (if isValueError then 400 else 500)
    ensures isValueError ==> r.body.error == message
    ensures !isValueError ==> StartsWith(r.body.error, InternalErrorPrefix)
                              && r.body.error[|InternalErrorPrefix|..] == message
  {
    if isValueError then Response(400, ErrorBody(message), None)
    else
      assert (InternalErrorPrefix + message)[..|InternalErrorPrefix|] == InternalErrorPrefix;
      Response(500, ErrorBody(InternalErrorPrefix + message), None)
  }

  /** From a non-empty URL and its domain on: score, categorise, build and save the row,
      answer. A `ValueError` from `save` is a 400, a failed write a 500. */
  function Assess(url: string, domain: string, ssl: SslData, whois: DomainData, store: Store): (r: Response)
    requires url != ""
    ensures r.status == 200 || r.status == 400 || r.status == 500
    ensures r.saved.Some? <==> r.status == 200
    ensures r.status == 200 ==>
              var rec := r.saved.value;
              && store.Stored?
              && r.body == ScanBody(rec.riskLevel, rec.riskCategory.Name(), rec.sslGrade, rec.domainAge,
                                    domain, store.id, Completed)
              && rec.riskLevel == RiskCalculator.CalculateRisk(ssl, whois)
              && 1 <= rec.riskLevel <= 100
              && rec.riskCategory == ViewCategory(rec.riskLevel)
              && rec.securityScore == 100 - rec.riskLevel == rec.trustScore
              && 0 <= rec.trustScore <= 99
              && rec.url == url
              && (domain != "" ==> rec.domain == domain)
              && rec.sslGrade == ssl.grade.GetOr(SslChecker.NotAvailable)
              && rec.domainAge == whois.age.GetOr(0)
              && rec.sslValid == ssl.valid.GetOr(false)
    ensures r.status == 400 ==> domain == "" && r.body == ErrorBody(UrlSplit.InvalidIpv6)
    ensures domain != "" || UrlSplit.Netloc(url).Ok? ==>
              && (store.Stored? <==> r.status == 200)
              && (store.StoreFailed? ==> r == Failure(false, store.message))
    ensures domain == "" && UrlSplit.Netloc(url).Err? ==> r == Failure(true, UrlSplit.InvalidIpv6)
  {
    var risk := RiskCalculator.CalculateRisk(ssl, whois);
    var category := ViewCategory(risk);
    var grade := ssl.grade.GetOr(SslChecker.NotAvailable);
    var age := whois.age.GetOr(0);
    var rec := Models.ScanRecord(url, domain, risk, category, grade, age, ssl.valid.GetOr(false),
                                 100 - risk, Max(0, 100 - risk));
    match Models.SaveScanResult(rec)
    case Err(e) => Failure(true, e)
    case Ok(saved) =>
      match store
      case StoreFailed(m) => Failure(false, m)
      case Stored(id) =>
        CategoryTablesAgree(risk);
        Response(200, ScanBody(risk, category.Name(), grade, age, domain, id, Completed), Some(saved))
  }

  /** The URL text the view works on: `data.get('url', '').strip()`. A missing key reads
      as the empty URL. */
  function RequestUrl(field: UrlField): (url: string)
    requires !field.NotString?
    ensures field.Absent? ==> url == ""
    ensures field.UrlString? ==> url == Strip(field.text)
    ensures url == "" <==> field.Absent? || forall k :: 0 <= k < |field.text| ==> IsSpace(field.text[k])
  {
    if field.Absent? then "" else Strip(field.text)
  }

  /** The view from domain extraction on: a `ValueError` from it is a 400. */
  function ScanDomain(url: string, domain: Result<string, string>, probe: SslChecker.Probe,
                      whois: DomainData, store: Store): (r: Response)
    requires url != ""
    ensures r.status == 200 || r.status == 400 || r.status == 500
    ensures r.saved.Some? <==> r.status == 200
    ensures domain.Err? ==> r == Failure(true, domain.error)
    ensures domain.Ok? ==> r == Assess(url, domain.value, SslChecker.CheckSsl(probe), whois, store)
  {
    match domain
    case Err(e) => Failure(true, e)
    case Ok(d) => Assess(url, d, SslChecker.CheckSsl(probe), whois, store)
  }

  /** The view once the URL text is known: an empty URL is a 400 before any lookup. */
  function ScanText(url: string, probe: SslChecker.Probe, whois: DomainData, store: Store): (r: Response)
    ensures r.status == 200 || r.status == 400 || r.status == 500
    ensures r.saved.Some? <==> r.status == 200
    ensures url == "" ==> r == Response(400, ErrorBody(UrlRequired), None)
    ensures url != "" ==> r == ScanDomain(url, UrlParser.ExtractDomain(url), probe, whois, store)
  {
    if url == "" then Response(400, ErrorBody(UrlRequired), None)
    else ScanDomain(url, UrlParser.ExtractDomain(url), probe, whois, store)
  }

  /** `scan_url`. */
  function ScanUrl(req: Request, probe: SslChecker.Probe, whois: DomainData, store: Store): (r: Response)
    ensures r.status == 200 || r.status == 400 || r.status == 500
    ensures r.saved.Some? <==> r.status == 200
    ensures r.status == 200 ==> req.Body? && req.url.UrlString? && RequestUrl(req.url) != ""
    ensures (req.Body? && !req.url.NotString? && RequestUrl(req.url) == "") ==> r == Response(400, ErrorBody(UrlRequired), None)
    ensures req.Body? && req.url.UrlString? ==> r == ScanText(Strip(req.url.text), probe, whois, store)
    ensures req.Unparseable? ==> r == Failure(true, req.message)
    ensures req.NotAnObject? ==> r == Failure(false, req.message)
    ensures req.Body? && req.url.NotString? ==> r == Failure(false, req.url.message)
  {
    match req
    case Unparseable(m) => Failure(true, m)
    case NotAnObject(m) => Failure(false, m)
    case Body(field) =>
      if field.NotString? then Failure(false, field.message)
      else ScanText(RequestUrl(field), probe, whois, store)
  }

  /** A URL the normaliser rejects is a 400 whose message starts with "Invalid URL: ",
      and nothing is written. */
  lemma InvalidUrlRejected(url: string, probe: SslChecker.Probe, whois: DomainData, store: Store)
    requires url != ""
    ensures UrlParser.ExtractDomain(url).Err? ==>
              var r := ScanText(url, probe, whois, store);
              r.status == 400 && r.saved.None? && r.body.ErrorBody?
              && StartsWith(r.body.error, UrlParser.InvalidUrlPrefix)
  {
  }

  /** The main path: a URL that yields a non-empty domain and a row the database accepts is
      a 200 reporting that domain, the `calculate_risk` score of the two lookups and the
      row's id. */
  lemma SuccessfulScan(url: string, probe: SslChecker.Probe, whois: DomainData, id: int)
    requires url != ""
    ensures UrlParser.ExtractDomain(url).Ok? && UrlParser.ExtractDomain(url).value != "" ==>
              var r := ScanText(url, probe, whois, Stored(id));
              && r.status == 200
              && r.body.domain == UrlParser.ExtractDomain(url).value
              && r.body.riskLevel == RiskCalculator.CalculateRisk(SslChecker.CheckSsl(probe), whois)
              && r.body.scanId == id
  {
  }

  /** The defaults for a missing grade and a missing age are the same in the row and in the
      response: `N/A` and 0. */
  lemma DefaultsAgree(url: string, domain: string, ssl: SslData, whois: DomainData, store: Store)
    requires url != ""
    requires Assess(url, domain, ssl, whois, store).status == 200
    ensures var r := Assess(url, domain, ssl, whois, store);
            && (ssl.grade.None? ==> r.body.sslGrade == SslChecker.NotAvailable == r.saved.value.sslGrade)
            && (whois.age.None? ==> r.body.domainAge == 0 == r.saved.value.domainAge)
  {
  }

  /** When both lookups fail, the scan still completes, maximally pessimistic: risk 90,
      category critical, grade `N/A`. A failed age lookup reports age 0 (or no age at all,
      which reads as 0); any age up to 0 scores the same and is reported as given. */
  lemma FailedLookupsAreCritical(url: string, reason: string, whois: DomainData, id: int)
    requires whois.age.GetOr(0) <= 0 && url != ""
    ensures UrlParser.ExtractDomain(url).Ok? && UrlParser.ExtractDomain(url).value != "" ==>
              var r := ScanText(url, SslChecker.Failed(reason), whois, Stored(id));
              r.status == 200 && r.body.riskLevel == 90 && r.body.riskCategory == "critical"
              && r.body.sslGrade == SslChecker.NotAvailable && r.body.domainAge == whois.age.GetOr(0)
  {
    var d := UrlParser.ExtractDomain(url);
    if d.Ok? && d.value != "" {
      var ssl := SslChecker.CheckSsl(SslChecker.Failed(reason));
      RiskCalculator.DegradedCertificateRisk(SslChecker.Failed(reason), whois);
      assert RiskCalculator.CalculateRisk(ssl, whois) == 90;
      var rec := Models.ScanRecord(url, d.value, 90, Models.Critical, SslChecker.NotAvailable, whois.age.GetOr(0), false, 10, 10);
      assert Models.SaveScanResult(rec).Ok?;
    }
  }

  /** The response reports the domain the view extracted, while the row keeps the one
      `save` fills in for an empty domain: the raw network location. They differ for a bare
      `www.` host, where the response domain is empty and the row's is `www.`. */
  lemma BareWwwHostDomains(scheme: string, tail: string, probe: SslChecker.Probe,
                           whois: DomainData, id: int)
    requires scheme == "http://" || scheme == "https://"
    requires |tail| == 0 || UrlSplit.IsDelimiter(tail[0])
    ensures var r := ScanText(scheme + UrlParser.WwwPrefix + tail, probe, whois, Stored(id));
            r.status == 200 && r.body.domain == "" && r.saved.value.domain == UrlParser.WwwPrefix
  {
    var url := scheme + UrlParser.WwwPrefix + tail;
    UrlParser.BareWww(scheme, tail);
    UrlParser.BareWwwNetloc(scheme, tail);
    EmptyDomainFilledOnSave(url, SslChecker.CheckSsl(probe), whois, Stored(id));
  }

  /** For an empty extracted domain, `save` fills the row's domain from the URL's network
      location, or fails with the unbalanced-bracket `ValueError`, which is a 400. */
  lemma EmptyDomainFilledOnSave(url: string, ssl: SslData, whois: DomainData, store: Store)
    requires url != ""
    ensures var r := Assess(url, "", ssl, whois, store);
            && (UrlSplit.Netloc(url).Ok? && store.Stored? ==>
                  r.status == 200 && r.body.domain == "" && r.saved.value.domain == UrlSplit.Netloc(url).value)
            && (UrlSplit.Netloc(url).Err? ==> r == Failure(true, UrlSplit.InvalidIpv6))
  {
  }
}
