# URL scanner core, modelled in Dafny

The scanner backend takes a URL and normalises it to a domain. It grades the domain's TLS
certificate, looks up the domain's age and combines both into a 1-100 risk level with a
category (low, medium, high, critical). It stores the scan as a `ScanResult` row and answers
with a JSON body. Around this pipeline sit a few model-side rules:

- the whitelist of SSL grades, with a colour and a description per grade;
- the category thresholds, which are applied again on save;
- filling in the domain on save;
- cleaning phone numbers and setting the anonymity flag of community stories;
- story truncation and the author's display name.

An older heuristic scorer (`scanner/utils.py`) is modelled as a separate scheme. It scores
the host name's TLD, length, hyphens, dots and keywords, and maps the negotiated protocol to
a grade.

Everything is a pure function. The parts that touch the outside world are parameters:

- the TLS connection (`SslChecker.Probe`: the peer certificate, the protocol string and the
  days until expiry, or the failure message);
- the domain-age lookup (`Lookups.DomainData`);
- the request body as JSON decoding and `.get` see it (`Views.Request`);
- the database write (`Views.Store`: the new row's id, or the failure message).

Python exceptions become `Result` values. In the view, a `ValueError` is a 400 and any
other exception is a 500.

Modules, one per source file, plus the shared helpers:

| module | models |
|---|---|
| `Wrappers` | `Option` and `Result` |
| `Numeric` | Python's two-argument `max` and `min` |
| `Text` | the `str` operations used: `in`, `find`, `count`, `strip`, `lower`, character filtering |
| `UrlSplit` | the part of `urllib.parse.urlsplit` that yields the network location |
| `UrlParser` | `scanner/utils/url_parser.py` |
| `Lookups` | the dictionaries `check_ssl` and `get_domain_age` return, with optional keys |
| `SslChecker` | `scanner/utils/ssl_checker.py` |
| `RiskCalculator` | `scanner/utils/risk_calculator.py` |
| `Models` | `scanner/models.py` |
| `Views` | `scanner/views.py` |
| `LegacyScorer` | `scanner/utils.py` |

`UrlSplit` follows CPython 3.12's `urlsplit` in these steps:

- strip leading C0 controls and spaces;
- remove tab, CR and LF everywhere;
- recognise a scheme: an ASCII letter, then letters, digits, `+`, `-` or `.`, then `:`;
- take the authority after `//` up to the first `/`, `?` or `#`;
- reject an authority holding one square bracket without the other ("Invalid IPv6 URL").

`urlparse` yields the same network location as `urlsplit`.

Observations the lemmas make precise:

- The response's `domain` is what `extract_domain_from_url` returned. The stored row's
  `domain` is filled by `ScanResult.save` from the raw network location when that value is
  empty. The two differ for a bare `www.` host: the response says `""` and the row says
  `www.` (`Views.BareWwwHostDomains`).
- The live certificate grading (`scanner/utils/ssl_checker.py`) treats `TLSv1` and `TLSv1.1` as outdated.
  The literal `TLSv1.0` grades A there. The legacy scorer keys its table on `TLSv1.0` (grade
  C), so the string `TLSv1` grades F there. Each is modelled as written.

## Model

| member | source | states |
|---|---|---|
| Text.ContainsOccurs | scanner/utils.py:21-39 | when `sub in s` holds, some window of `s` equals `sub` |
| Text.OccursContains | scanner/utils.py:21-39 | a window of `s` equal to `sub` makes `sub in s` hold |
| Text.ContainsIffOccurs | scanner/utils.py:21-39 | `sub in s` holds exactly when some window of `s` equals `sub` |
| Text.ContainsAnyIff | scanner/utils.py:21-24 | `any(t in s for t in subs)` holds exactly when one of the candidates occurs in `s` |
| Text.Find | scanner/utils/url_parser.py:12-13 | `find` returns the first index of the character, or -1 exactly when it is absent |
| Text.Count | scanner/utils.py:33 | `count` is the character's multiplicity in the string |
| Text.Filter | scanner/models.py:205 | filtering keeps only characters that satisfy the predicate and never lengthens the string |
| Text.FilterCounts | scanner/models.py:205 | each kept character survives exactly as often as it occurs in the input; the others vanish |
| Text.FilterConcat | scanner/models.py:205 | filtering distributes over concatenation |
| Text.FilterIdentity | scanner/models.py:205 | filtering leaves a string unchanged exactly when every character is kept |
| Text.FilterIdempotent | scanner/models.py:205 | filtering twice is filtering once |
| Text.Lower | scanner/utils.py:13 | lower-casing keeps the length and maps each character on its own |
| Text.TrimStart | scanner/views.py:16 | the removed prefix is all whitespace and the rest does not start with whitespace |
| Text.TrimEnd | scanner/views.py:16 | the removed suffix is all whitespace and the rest does not end with whitespace |
| Text.LeadingSpaces | scanner/views.py:16 | the counted prefix is all whitespace and the character after it is not |
| Text.TrailingSpaces | scanner/views.py:16 | the counted suffix is all whitespace and the character before it is not |
| Text.Strip | scanner/views.py:16 | `strip()` is the block of the input starting after its leading whitespace, with only whitespace before and after it; it is empty exactly for an all-whitespace string, and otherwise both its ends are non-whitespace |
| UrlSplit.LStripC0 | scanner/utils/url_parser.py:12 | parsing drops the leading run of C0 controls and spaces: everything removed is such a character, and the remaining suffix does not start with one |
| UrlSplit.NetlocEnd | scanner/utils/url_parser.py:12-13 | the authority ends at the first `/`, `?` or `#`, or at the end of the string |
| UrlSplit.CheckedAuthority | scanner/utils/url_parser.py:12-13 | the authority, free of `/`, `?` and `#`, is returned unless it holds one square bracket without the other, which is the "Invalid IPv6 URL" error |
| UrlSplit.Preprocess | scanner/utils/url_parser.py:12 | the clean-up is the C0/space left strip followed by the removal of every tab, carriage return and line feed, so none of those is left |
| UrlSplit.AfterScheme | scanner/utils/url_parser.py:12 | when the URL opens with a letter, scheme characters and a `:`, everything up to that colon is removed; otherwise the URL is returned unchanged |
| UrlSplit.Netloc | scanner/utils/url_parser.py:12-13 | a parsed network location contains no `/`, `?`, `#`, tab or line break and has balanced brackets; the only error is "Invalid IPv6 URL" |
| UrlSplit.AuthorityOfHost | scanner/utils/url_parser.py:12-13 | a host followed by nothing or by a path, query or fragment is the whole authority |
| UrlSplit.PreprocessWeb | scanner/utils/url_parser.py:12 | behind `http://` or `https://`, preprocessing only removes tabs and line breaks from the rest |
| UrlSplit.AfterWebScheme | scanner/utils/url_parser.py:12 | `http` and `https` are recognised as schemes, leaving `//` and the rest |
| UrlSplit.WebNetloc | scanner/utils/url_parser.py:12-13 | behind a web scheme, the network location is the checked authority of the rest without tabs and line breaks |
| UrlSplit.SchemeRelativeNetloc | scanner/utils/url_parser.py:12-13 | for a URL `//rest` the network location is the checked authority of the rest without tabs and line breaks |
| UrlSplit.NoSlashAfterCleanUp | scanner/utils/url_parser.py:12-13 | the clean-up introduces no `/` |
| UrlSplit.NoAuthorityWithoutSlash | scanner/utils/url_parser.py:12-13 | without a `/`, what follows the scheme cannot open with `//` |
| UrlSplit.SlashlessNetloc | scanner/utils/url_parser.py:12-13 | a URL without `/` has the empty network location, whatever scheme-like prefix it has (so `example.com:8080` gives `""`) |
| UrlSplit.SchemelessHost | scanner/utils.py:12-13 | the scheme-less host `example.com` has the empty network location, so the legacy scorer scores an empty host for it |
| UrlSplit.FindFirst | scanner/utils/url_parser.py:12-13 | an index holding the character with no earlier occurrence is what `find` returns |
| UrlParser.WithScheme | scanner/utils/url_parser.py:9-10 | after defaulting, the URL always starts with `http://` or `https://` |
| UrlParser.StripWww | scanner/utils/url_parser.py:16-17 | a host starting with `www.` is that prefix followed by the result; any other host is returned unchanged |
| UrlParser.ExtractDomain | scanner/utils/url_parser.py:3-21 | a domain never contains `/`, `?` or `#`; every failure is a message starting with "Invalid URL: " |
| UrlParser.ExtractDomainSpec | scanner/utils/url_parser.py:9-21 | the domain is the authority after the (defaulted) scheme less one leading `www.`; the only failure is an unbalanced bracket, reported with the "Invalid URL: " prefix |
| UrlParser.FromNetloc | scanner/utils/url_parser.py:16-21 | a parsed network location yields a suffix of it (the `www.` removal only shortens); a parse error is re-raised with the "Invalid URL: " prefix |
| UrlParser.WebDomain | scanner/utils/url_parser.py:9-21 | behind an explicit web scheme, the domain comes from the checked authority of the rest without tabs and line breaks |
| UrlParser.SchemeDefaulted | scanner/utils/url_parser.py:9-10 | without a web scheme, `x` and `https://x` yield the same domain |
| UrlParser.WebPrefixOf | scanner/utils/url_parser.py:9-10 | an explicit web scheme is kept and what follows it is the rest |
| UrlParser.FilteredAuthority | scanner/utils/url_parser.py:12-13 | a plain host followed by nothing or a delimiter is the authority, and passes the bracket check, tab and line-break removal notwithstanding |
| UrlParser.PlainHostKept | scanner/utils/url_parser.py:9-19 | a plain host not starting with `www.`, port included, is returned whole |
| UrlParser.OneWwwStripped | scanner/utils/url_parser.py:16-17 | exactly one leading `www.` is removed, so `www.www.a.com` gives `www.a.com` |
| UrlParser.UpperCaseWwwKept | scanner/utils/url_parser.py:16-17 | the `www.` test is case-sensitive: a host starting with `WWW.` is kept |
| UrlParser.EmptyHost | scanner/utils/url_parser.py:9-19 | an empty host yields the empty domain, not an error |
| UrlParser.EmptyUrl | scanner/utils/url_parser.py:9-19 | the empty URL yields the empty domain |
| UrlParser.BareWww | scanner/utils/url_parser.py:12-17 | a bare `www.` host yields the empty domain |
| UrlParser.BareWwwNetloc | scanner/utils/url_parser.py:12-13 | the network location of a bare `www.` host is `www.` |
| SslChecker.CalculateSslGrade | scanner/utils/ssl_checker.py:34-45 | the grade is a letter A, B, C or F, and as bad as the worse of the expiry verdict and the protocol verdict |
| SslChecker.GradingPriority | scanner/utils/ssl_checker.py:34-45 | expired gives F and under 30 days gives C, whatever the protocol; otherwise `TLSv1`/`TLSv1.1` give B and everything else, the literal `TLSv1.0` included, gives A |
| SslChecker.GradeMonotoneInDays | scanner/utils/ssl_checker.py:35-39 | more days until expiry never worsens the grade |
| SslChecker.GradeIgnoresCert | scanner/utils/ssl_checker.py:34-45 | the certificate argument never affects the grade |
| SslChecker.FirstOrganization | scanner/utils/ssl_checker.py:47-54 | the issuer is the value of the first `organizationName` entry, `Unknown` when there is none, and an error only when an empty entry comes before any organisation |
| SslChecker.IssuerName | scanner/utils/ssl_checker.py:47-54 | no issuer, or no RDN leading with `organizationName`, gives `Unknown`; otherwise the first such value, unless an empty RDN comes first, which is an error |
| SslChecker.CheckSsl | scanner/utils/ssl_checker.py:5-32 | each failure, in the order the code meets it (connection, missing `notAfter`, unparsable expiry, missing `notBefore`, issuer error), gives grade `N/A` plus that error and no other key; with none of them the result is valid, graded by `calculate_ssl_grade` on the probe's protocol and days, with the issuer name and both dates |
| RiskCalculator.RawRisk | scanner/utils/risk_calculator.py:6-38 | the unclamped penalty sum never exceeds 100 |
| RiskCalculator.GradePenalty | scanner/utils/risk_calculator.py:9-19 | A costs 0, B 15, C 30, and F, `N/A` or any other grade 50, each value for exactly those grades |
| RiskCalculator.AgePenalty | scanner/utils/risk_calculator.py:22-30 | over 5 years costs 0, 3-5 costs 10, 1-2 costs 20, 0 or less costs 30, each value for exactly that band |
| RiskCalculator.ProtocolPenalty | scanner/utils/risk_calculator.py:34-35 | exactly `TLSv1` and `TLSv1.1` cost 10; every other protocol, or none, costs 0 |
| RiskCalculator.ExpiryPenalty | scanner/utils/risk_calculator.py:37-38 | exactly fewer than 15 days to expiry costs 10, otherwise 0 |
| RiskCalculator.CalculateRisk | scanner/utils/risk_calculator.py:1-43 | the risk is in 1..100 and only the lower clamp can act: a raw 0 becomes 1 |
| RiskCalculator.MinimumRiskIff | scanner/utils/risk_calculator.py:9-41 | risk 1 exactly for grade A, age over 5, a current protocol and at least 15 days to expiry |
| RiskCalculator.DependsOnlyOnSignals | scanner/utils/risk_calculator.py:9-37 | only grade, age, protocol and days until expiry influence the risk |
| RiskCalculator.UnknownGradeScoresAsF | scanner/utils/risk_calculator.py:9-19 | a missing grade, `N/A` or any unknown grade scores like F |
| RiskCalculator.UnknownAgeScoresAsZero | scanner/utils/risk_calculator.py:22-30 | a missing age scores like an age of 0 or less |
| RiskCalculator.OlderDomainNeverRiskier | scanner/utils/risk_calculator.py:22-30 | an older domain is never riskier |
| RiskCalculator.LaterExpiryNeverRiskier | scanner/utils/risk_calculator.py:37-38 | more days until expiry is never riskier |
| RiskCalculator.BetterGradeNeverRiskier | scanner/utils/risk_calculator.py:9-19 | a better letter grade is never riskier |
| RiskCalculator.DegradedCertificateRisk | scanner/utils/risk_calculator.py:9-41 | after a failed certificate check the risk is 60 plus the age penalty, so at least 60, and 90 without an age |
| RiskCalculator.GradedCertificateRisk | scanner/utils/risk_calculator.py:6-38 | after a successful check the raw risk is the sum of the grade, age, protocol and expiry penalties of the probe |
| RiskCalculator.Scenarios | scanner/utils/risk_calculator.py:1-43 | a best-case input scores 1 and a worst-case input scores 100 |
| Models.ValidateSslGrade | scanner/models.py:8-14 | exactly A+, A, B, C, F and N/A are accepted |
| Models.JoinedGrades | scanner/models.py:10-13 | the whitelist joined with ", " reads `A+, A, B, C, F, N/A` |
| Models.RejectionMessage | scanner/models.py:10-14 | a rejected grade reports the comma-separated list of valid grades |
| Models.CheckedGradesAreValid | scanner/models.py:8-14 | every grade the certificate check produces passes the whitelist |
| Models.GradeColor | scanner/models.py:63-72 | `success` exactly for A+ and A, `warning` exactly for B and C, `danger` exactly for F, `secondary` for every other string |
| Models.GradeDescription | scanner/models.py:74-83 | the excellent text exactly for A+ and A, the weak text for B and C, the broken text for F, "Grade not available." for every other string |
| Models.ColorFollowsGroup | scanner/models.py:63-72 | two grades get the same colour exactly when they fall in the same group (A+/A, B/C, F, other) |
| Models.DescriptionFollowsGroup | scanner/models.py:74-83 | two grades get the same description exactly when they fall in the same group |
| Models.ColorAndDescriptionAgree | scanner/models.py:63-83 | the colour and the description partition the grades identically |
| Models.OnlyNotAvailableIsUnknown | scanner/models.py:63-83 | among valid grades, only `N/A` gets the unknown colour and description |
| Models.SaveCategory | scanner/models.py:92-99 | critical for 80 and above, high for 60-79, medium for 30-59, low below 30, each band including its lower edge |
| Models.CategoryMonotone | scanner/models.py:92-99 | a higher risk level never gets a lower category |
| Models.SaveScanResult | scanner/models.py:85-101 | save overwrites the category from the risk level, keeps a non-empty domain or an empty URL's empty domain, fills an empty domain with the network location of a non-empty URL (or fails with its "Invalid IPv6 URL" error), and changes nothing else |
| Models.SaveIdempotent | scanner/models.py:85-101 | saving a saved row changes nothing |
| Models.CleanPhone | scanner/models.py:204-205 | only digits and `+` remain, each as often as in the input; a clean number is unchanged |
| Models.CleanPhoneConcat | scanner/models.py:204-205 | cleaning a concatenation is the concatenation of the cleaned parts, so kept characters stay in input order |
| Models.CleanPhoneIdempotent | scanner/models.py:204-205 | cleaning twice is cleaning once |
| Models.SaveStory | scanner/models.py:202-211 | the phone number is cleaned, the story becomes anonymous exactly when it was or has neither user nor author name, and nothing else changes |
| Models.SaveStoryIdempotent | scanner/models.py:202-211 | saving a saved story changes nothing |
| Models.ShortStory | scanner/models.py:213-217 | up to 150 characters the story is unchanged; beyond that it is the first 150 characters and `...` |
| Models.DisplayName | scanner/models.py:219-227 | the display name is always "Anonymous", the author name, the user's name or "Community Member", and "Anonymous" for an anonymous story |
| Models.DisplayNamePriority | scanner/models.py:219-227 | anonymous, then author name, then username, then "Community Member" |
| Models.SavedStoryHasNamedAuthor | scanner/models.py:207-227 | after save the display name is "Anonymous", the author name or the username, and "Anonymous" when there is neither user nor author |
| Views.ViewCategory | scanner/views.py:29-36 | critical exactly from 80, high exactly for 60-79, medium exactly for 30-59, low exactly below 30 |
| Views.CategoryTablesAgree | scanner/views.py:29-36 | the view's category thresholds agree with those `save` re-applies |
| Views.Failure | scanner/views.py:65-68 | a `ValueError` is a 400 with its message, anything else a 500 with the "Internal server error: " prefix, and nothing is stored |
| Views.Assess | scanner/views.py:24-63 | a 200 stores the row and reports exactly its risk, category, grade and age; the risk is `calculate_risk` of the two lookups, in 1-100; the category matches, security and trust scores both equal 100 minus risk (0-99), a missing grade is `N/A`, a missing age 0; a 400 comes only from an unbalanced bracket in an empty domain's URL; whenever the domain is non-empty or the URL parses, a stored row is exactly a 200 and a failed write is the 500 with its message; an empty domain whose URL does not parse is the 400 "Invalid IPv6 URL" whatever the database would do (the `ValueError` of scanner/models.py:87-89 comes before the write) |
| Views.ScanDomain | scanner/views.py:21-26 | a domain-extraction error is a 400 with its message; otherwise the scan proceeds with the graded certificate |
| Views.ScanText | scanner/views.py:18-21 | an empty URL is a 400 "URL is required" with nothing stored; any other URL goes on to domain extraction |
| Views.RequestUrl | scanner/views.py:16 | a missing `url` reads as the empty URL, a string one is stripped; the result is empty exactly when the key is missing or the text is all whitespace |
| Views.ScanUrl | scanner/views.py:13-68 | every outcome is 200, 400 or 500; a row is stored exactly on 200, which needs a string URL that is non-empty after stripping; undecodable JSON is a 400 (a `ValueError`), a body that is not an object or a `url` that is not a string a 500; an empty or all-whitespace URL is a 400; a string URL is stripped and the scan goes on with the stripped text |
| Views.InvalidUrlRejected | scanner/views.py:21 | a URL the normaliser rejects is a 400 with an "Invalid URL: " message and nothing stored |
| Views.SuccessfulScan | scanner/views.py:21-63 | a URL with a non-empty domain and a successful write is a 200 reporting that domain, the `calculate_risk` score of the lookups and the row id |
| Views.DefaultsAgree | scanner/views.py:44-57 | a missing grade is `N/A` and a missing age 0, identically in the row and in the response |
| Views.FailedLookupsAreCritical | scanner/views.py:24-61 | when the certificate check fails and the age lookup fails (age 0, as `get_domain_age` answers then, or no age), the scan still completes with risk 90, critical, grade `N/A`, and the age reported as looked up |
| Views.BareWwwHostDomains | scanner/views.py:39-58 | for a bare `www.` host the response domain is empty while the stored domain is `www.` |
| Views.EmptyDomainFilledOnSave | scanner/models.py:87-89 | with an empty extracted domain and a successful write the row's domain is the URL's network location; with an unparsable URL the scan is a 400 "Invalid IPv6 URL" for any write outcome |
| LegacyScorer.Clamp | scanner/utils.py:51 | the result lies in 0..100 and equals the input when that is in range |
| LegacyScorer.TldAdjustment | scanner/utils.py:21-24 | +25 exactly when a risky TLD occurs, -10 exactly when only a good one does, 0 when neither does |
| LegacyScorer.LengthAdjustment | scanner/utils.py:27-28 | +15 exactly for a host longer than 30 characters |
| LegacyScorer.HyphenAdjustment | scanner/utils.py:30-31 | +10 exactly when the host holds a hyphen |
| LegacyScorer.DotsAdjustment | scanner/utils.py:33-34 | +10 exactly for more than two dots |
| LegacyScorer.KeywordAdjustment | scanner/utils.py:37-39 | +20 exactly when a suspicious word occurs |
| LegacyScorer.GradeAdjustment | scanner/utils.py:42-46 | +30 exactly for F, -20 exactly for A and A+, 0 for any other grade |
| LegacyScorer.RawScore | scanner/utils.py:9-46 | the unclamped score lies between 20 and 160 |
| LegacyScorer.HostScore | scanner/utils.py:9-51 | a parsed host scores in 20..100: exactly its raw score when that is at most 100, and 100 when it is higher |
| LegacyScorer.CalculateRiskLevel | scanner/utils.py:7-51 | the level is in 0..100; a parse error gives exactly 65; otherwise it is the score of the host |
| LegacyScorer.GradeOrdersRisk | scanner/utils.py:42-46 | F gives the highest level and A the lowest, every other grade lies between, and A+ scores as A |
| LegacyScorer.NeutralHost | scanner/utils.py:9-46 | with no signal and a grade other than A, A+ or F, the level is the neutral 50 |
| LegacyScorer.RiskyTldShadowsGood | scanner/utils.py:21-24 | a risky TLD adds 25 even when a good TLD also occurs |
| LegacyScorer.GoodTldAlone | scanner/utils.py:21-24 | a good TLD subtracts 10 exactly when it occurs and no risky TLD does |
| LegacyScorer.KeywordsCountOnce | scanner/utils.py:37-39 | any number of suspicious words adds 20 once, none adds nothing |
| LegacyScorer.SuffixContained | scanner/utils.py:37-38 | an occurrence of a word is an occurrence of each of its suffixes |
| LegacyScorer.WinCountsTwice | scanner/utils.py:18-39 | `.win` counts both as a risky TLD and as the suspicious word `win`, so such a host never scores under 75 |
| LegacyScorer.CaseInsensitive | scanner/utils.py:12-13 | hosts equal up to case score the same |
| LegacyScorer.ProtocolGrade | scanner/utils.py:69-76 | the protocol grade is always A, B, C or F |
| LegacyScorer.GradeFollowsTable | scanner/utils.py:69-76 | TLSv1.3/TLSv1.2 give A, TLSv1.1 B, TLSv1.0 C, anything else F |
| LegacyScorer.ExactProtocolNames | scanner/utils.py:73-76 | the match is on exact strings: `TLSv1.0` gives C, `TLSv1` gives F |
| LegacyScorer.CheckSslGrade | scanner/utils.py:53-79 | the grade is A, B, C or F; a URL not starting with `https://`, a parse error or a failed connection give F; otherwise the protocol's grade |
| LegacyScorer.NeverAPlus | scanner/utils.py:45-79 | the grade lookup never yields A+, so the scorer's A+ case is unreachable through it |
| LegacyScorer.ScoreUrl | scanner/utils.py:7-57 | with its own grade lookup, a URL that does not start with `https://` never scores under 65 |

## Left out

- The TLS connection, `getpeercert`, `ssock.version()`, `strptime` and the clock in `check_ssl` and `check_ssl_grade`: network and clock I/O. Their outputs are parameters.
- `scanner/utils/domain_checker.py`: a wrapper over the third-party `whois` library and the clock, whose age is a float division. The age is an optional integer parameter.
- `get_domain_age` in `scanner/utils.py`: it returns `random.randint` values, so nothing deterministic holds of it.
- `authentication/views.py`, `backend/settings.py`, `backend/urls.py`, `scanner/admin.py`, `scanner/serializers.py`: authentication, configuration, routing and field lists, outside the scanner core.
- ORM persistence, timestamps, the `SecurityReport` and `CommunityReport` models, and the `URLField`/`URLValidator` field validators: the database write is a parameter (`Views.Store`), and validators do not run on `objects.create`.
- `json.loads` and the text of its error messages: the decoded request shape and the messages are parameters (`Views.Request`, `Views.UrlField`).
- Text.Lower: lower-cases ASCII letters only, where Python's `str.lower` maps all of Unicode.
- Models.CleanPhone: keeps ASCII digits only, where Python's `\d` matches every Unicode decimal digit.
- UrlSplit.Netloc: leaves out `urlsplit`'s validation of bracketed IPv6/IPvFuture hosts and its NFKC check for characters that normalise to separators; only the unbalanced-bracket error is modelled.
- SslChecker.CheckSsl: a `protocol` of `None` and a missing `protocol` key are one `Option` value, as `.get` reads them the same.
- Views.ScanUrl: `@require_POST` and `@csrf_exempt` are left out; the view is modelled from the point the POST body is read.
