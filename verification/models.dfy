/** The rules the Django models of scanner/models.py apply: the SSL-grade whitelist
    and its display partitions, `ScanResult.save`, and the `CommunityStory` helpers. */
module Models {
  import opened Wrappers
  import opened Text
  import UrlSplit
  import SslChecker

  /** `validate_ssl_grade`'s whitelist, in the order its message lists it. */
  const ValidGrades: seq<string> := ["A+", "A", "B", "C", "F", "N/A"]

  /** Python's `", ".join(items)`. */
  function Join(items: seq<string>, sep: string): string {
    if |items| == 0 then ""
    else if |items| == 1 then items[0]
    else items[0] + sep + Join(items[1..], sep)
  }

  /** `validate_ssl_grade`: `None` when accepted, else the `ValidationError` message. */
  function ValidateSslGrade(value: string): (r: Option<string>)
    ensures r.None? <==> value == "A+" || value == "A" || value == "B" || value == "C" || value == "F" || value == "N/A"
  {
    if value in ValidGrades then None
    else Some(RejectionPrefix + Join(ValidGrades, ", "))
  }

  const RejectionPrefix := "Invalid SSL grade. Must be one of: "

  /** The whitelist joined as the message shows it. */
  lemma JoinedGrades()
    ensures Join(ValidGrades, ", ") == "A+, A, B, C, F, N/A"
  {
    assert ["F", "N/A"][1..] == ["N/A"];
    assert Join(["F", "N/A"], ", ") == "F, N/A";
    assert ["C", "F", "N/A"][1..] == ["F", "N/A"];
    assert Join(["C", "F", "N/A"], ", ") == "C, F, N/A";
    assert ["B", "C", "F", "N/A"][1..] == ["C", "F", "N/A"];
    assert Join(["B", "C", "F", "N/A"], ", ") == "B, C, F, N/A";
    assert ["A", "B", "C", "F", "N/A"][1..] == ["B", "C", "F", "N/A"];
    assert Join(["A", "B", "C", "F", "N/A"], ", ") == "A, B, C, F, N/A";
    assert ValidGrades[1..] == ["A", "B", "C", "F", "N/A"];
  }

  /** The rejection message spells the whitelist out in full. */
  lemma RejectionMessage(value: string)
    requires value !in ValidGrades
    ensures ValidateSslGrade(value) == Some(RejectionPrefix + "A+, A, B, C, F, N/A")
  {
    JoinedGrades();
  }

  /** Every grade `check_ssl` can produce passes the whitelist. */
  lemma CheckedGradesAreValid(probe: SslChecker.Probe)
    ensures ValidateSslGrade(SslChecker.CheckSsl(probe).grade.value).None?
  {
  }

  /** `get_ssl_grade_color`: green for A+ and A, yellow for B and C, red for F, grey otherwise. */
  function GradeColor(grade: string): (c: string)
    ensures c == "success" <==> grade == "A+" || grade == "A"
    ensures c == "warning" <==> grade == "B" || grade == "C"
    ensures c == "danger" <==> grade == "F"
    ensures c == "secondary" <==> grade !in ["A+", "A", "B", "C", "F"]
  {
    if grade == "A+" || grade == "A" then "success"
    else if grade == "B" || grade == "C" then "warning"
    else if grade == "F" then "danger"
    else "secondary"
  }

  const ExcellentText := "Excellent. This site uses top-tier security. You can browse and shop with confidence."
  const WeakText := "Warning. The security is outdated or weak. Be cautious about entering sensitive information."
  const BrokenText := "Danger. This site's security is broken or missing. Do not enter any personal details."
  const UnavailableText := "Grade not available."

  /** `get_ssl_grade_description`: one text per group, "Grade not available." for any grade
      outside A+, A, B, C and F. */
  function GradeDescription(grade: string): (d: string)
    ensures d == ExcellentText <==> grade == "A+" || grade == "A"
    ensures d == WeakText <==> grade == "B" || grade == "C"
    ensures d == BrokenText <==> grade == "F"
    ensures d == UnavailableText <==> grade !in ["A+", "A", "B", "C", "F"]
  {
    if grade == "A+" || grade == "A" then ExcellentText
    else if grade == "B" || grade == "C" then WeakText
    else if grade == "F" then BrokenText
    else UnavailableText
  }

  /** The four display groups both partitions are built on. */
  datatype GradeGroup = Excellent | Weak | Broken | Unavailable

  function GroupOf(grade: string): GradeGroup {
    if grade == "A+" || grade == "A" then Excellent
    else if grade == "B" || grade == "C" then Weak
    else if grade == "F" then Broken
    else Unavailable
  }

  /** The colour is a function of the group, and a different group gets a different colour. */
  lemma ColorFollowsGroup(g1: string, g2: string)
    ensures GradeColor(g1) == GradeColor(g2) <==> GroupOf(g1) == GroupOf(g2)
  {
    var c1, c2 := GradeColor(g1), GradeColor(g2);
    if GroupOf(g1) != GroupOf(g2) {
      assert "success" != "warning" && "success" != "danger" && "success" != "secondary";
      assert "warning" != "danger" && "warning" != "secondary" && "danger" != "secondary";
    }
  }

  /** The description is a function of the group, and a different group gets a different one. */
  lemma DescriptionFollowsGroup(g1: string, g2: string)
    ensures GradeDescription(g1) == GradeDescription(g2) <==> GroupOf(g1) == GroupOf(g2)
  {
    var d1, d2 := GradeDescription(g1), GradeDescription(g2);
    if GroupOf(g1) != GroupOf(g2) {
      assert ExcellentText != WeakText && ExcellentText != BrokenText && ExcellentText != UnavailableText;
      assert WeakText != BrokenText && WeakText != UnavailableText && BrokenText != UnavailableText;
    }
  }

  /** Colour and description partition the grades into the same four groups: two grades
      share a colour exactly when they share a description. */
  lemma ColorAndDescriptionAgree(g1: string, g2: string)
    ensures GradeColor(g1) == GradeColor(g2) <==> GradeDescription(g1) == GradeDescription(g2)
  {
    ColorFollowsGroup(g1, g2);
    DescriptionFollowsGroup(g1, g2);
  }

  /** Among whitelisted grades, only `N/A` falls in the unknown group. */
  lemma OnlyNotAvailableIsUnknown(grade: string)
    requires ValidateSslGrade(grade).None?
    ensures GradeColor(grade) == "secondary" <==> grade == "N/A"
    ensures GradeDescription(grade) == UnavailableText <==> grade == "N/A"
  {
  }

  /** `RISK_CATEGORY_CHOICES`. */
  datatype RiskCategory = Low | Medium | High | Critical {
    function Name(): string {
      match this
      case Low => "low"
      case Medium => "medium"
      case High => "high"
      case Critical => "critical"
    }

    function Rank(): nat {
      match this
      case Low => 0
      case Medium => 1
      case High => 2
      case Critical => 3
    }
  }

  /** The category `save` assigns to a risk level: 80 and up critical, 60 and up high,
      30 and up medium, else low; each band holds its lower edge. */
  function SaveCategory(riskLevel: int): (c: RiskCategory)
    ensures c == Critical <==> riskLevel >= 80
    ensures c == High <==> 60 <= riskLevel < 80
    ensures c == Medium <==> 30 <= riskLevel < 60
    ensures c == Low <==> riskLevel < 30
  {
    if riskLevel >= 80 then Critical
    else if riskLevel >= 60 then High
    else if riskLevel >= 30 then Medium
    else Low
  }

  /** A higher risk level never gets a milder category. */
  lemma CategoryMonotone(l1: int, l2: int)
    requires l1 <= l2
    ensures SaveCategory(l1).Rank() <= SaveCategory(l2).Rank()
  {
  }

  /** The columns of a `ScanResult` row that the scanner writes. */
  datatype ScanRecord = ScanRecord(
    url: string,
    domain: string,
    riskLevel: int,
    riskCategory: RiskCategory,
    sslGrade: string,
    domainAge: int,
    sslValid: bool,
    securityScore: int,
    trustScore: int)

  /** `ScanResult.save` before the database write: fill an empty domain from the URL's
      netloc (which may raise `ValueError`), then overwrite the category. */
  function SaveScanResult(rec: ScanRecord): (r: Result<ScanRecord, string>)
    ensures r.Ok? ==> r.value.riskCategory == SaveCategory(rec.riskLevel)
    ensures r.Ok? ==> r.value == rec.(domain := r.value.domain, riskCategory := r.value.riskCategory)
    ensures rec.domain != "" ==> r == Ok(rec.(riskCategory := SaveCategory(rec.riskLevel)))
    ensures r.Err? ==> rec.domain == "" && r.error == UrlSplit.InvalidIpv6
    ensures rec.url == "" ==> r == Ok(rec.(riskCategory := SaveCategory(rec.riskLevel)))
    ensures rec.url != "" && rec.domain == "" ==>
              match UrlSplit.Netloc(rec.url)
              case Ok(netloc) => r == Ok(rec.(domain := netloc, riskCategory := SaveCategory(rec.riskLevel)))
              case Err(e) => r == Err(e)
  {
    var domain :- if rec.url != "" && rec.domain == "" then UrlSplit.Netloc(rec.url) else Ok(rec.domain);
    Ok(rec.(domain := domain, riskCategory := SaveCategory(rec.riskLevel)))
  }

  /** Saving a saved record changes nothing. */
  lemma SaveIdempotent(rec: ScanRecord)
    requires SaveScanResult(rec).Ok?
    ensures SaveScanResult(SaveScanResult(rec).value) == SaveScanResult(rec)
  {
  }

  /** Python's `re.sub(r'[^\d+]', '', s)` keeps digits and '+'. */
  predicate IsPhoneChar(c: char) {
    '0' <= c <= '9' || c == '+'
  }

  /** The phone-number clean-up: only digits and '+' survive, each as often as in the input. */
  function CleanPhone(phone: string): (r: string)
    ensures forall i :: 0 <= i < |r| ==> IsPhoneChar(r[i])
    ensures forall c :: IsPhoneChar(c) ==> multiset(r)[c] == multiset(phone)[c]
    ensures (forall i :: 0 <= i < |phone| ==> IsPhoneChar(phone[i])) ==> r == phone
  {
    FilterIdentity(phone, IsPhoneChar);
    FilterCounts(phone, IsPhoneChar);
    Filter(phone, IsPhoneChar)
  }

  /** Cleaning works piece by piece, so the kept characters stay in their input order:
      together with the contract of `CleanPhone` on one character this fixes the result. */
  lemma CleanPhoneConcat(a: string, b: string)
    ensures CleanPhone(a + b) == CleanPhone(a) + CleanPhone(b)
  {
    FilterConcat(a, b, IsPhoneChar);
  }

  /** Cleaning a cleaned number changes nothing. */
  lemma CleanPhoneIdempotent(phone: string)
    ensures CleanPhone(CleanPhone(phone)) == CleanPhone(phone)
  {
    FilterIdempotent(phone, IsPhoneChar);
  }

  datatype User = User(username: string)

  /** The columns of a `CommunityStory` row that its methods read or write. */
  datatype Story = Story(
    title: string,
    story: string,
    websiteUrl: Option<string>,
    phoneNumber: Option<string>,
    scamType: string,
    user: Option<User>,
    authorName: string,
    isAnonymous: bool,
    status: string,
    isPublic: bool)

  /** `CommunityStory.save` before the database write. */
  function SaveStory(s: Story): (r: Story)
    ensures r.phoneNumber.Some? <==> s.phoneNumber.Some?
    ensures r.phoneNumber.Some? ==> r.phoneNumber.value == CleanPhone(s.phoneNumber.value)
    ensures r.isAnonymous <==> s.isAnonymous || (s.user.None? && s.authorName == "")
    ensures r == s.(phoneNumber := r.phoneNumber, isAnonymous := r.isAnonymous)
  {
    var phone := if s.phoneNumber.Some? && s.phoneNumber.value != "" then Some(CleanPhone(s.phoneNumber.value)) else s.phoneNumber;
    var anonymous := if s.user.None? && s.authorName == "" then true else s.isAnonymous;
    s.(phoneNumber := phone, isAnonymous := anonymous)
  }

  /** Saving a saved story changes nothing. */
  lemma SaveStoryIdempotent(s: Story)
    ensures SaveStory(SaveStory(s)) == SaveStory(s)
  {
    if s.phoneNumber.Some? {
      CleanPhoneIdempotent(s.phoneNumber.value);
    }
  }

  const ShortStoryLength := 150
  const Ellipsis := "..."

  /** `get_short_story`: a story of at most 150 characters is returned whole; a longer
      one is cut to its first 150 characters followed by "...". */
  function ShortStory(story: string): (r: string)
    ensures |story| <= ShortStoryLength ==> r == story
    ensures |story| > ShortStoryLength ==> |r| == ShortStoryLength + |Ellipsis|
    ensures |story| > ShortStoryLength ==> r[..ShortStoryLength] == story[..ShortStoryLength] && r[ShortStoryLength..] == Ellipsis
  {
    if |story| > ShortStoryLength then story[..ShortStoryLength] + Ellipsis else story
  }

  /** `get_display_name`: "Anonymous" for an anonymous story, else the author name, else
      the user's name, else "Community Member". */
  function DisplayName(s: Story): (name: string)
    ensures name == "Anonymous" || name == s.authorName || name == "Community Member"
            || (s.user.Some? && name == s.user.value.username)
    ensures s.isAnonymous ==> name == "Anonymous"
  {
    if s.isAnonymous then "Anonymous"
    else if s.authorName != "" then s.authorName
    else if s.user.Some? then s.user.value.username
    else "Community Member"
  }

  /** The display name follows the priority anonymous, author name, username, fallback. */
  lemma DisplayNamePriority(s: Story)
    ensures s.isAnonymous ==> DisplayName(s) == "Anonymous"
    ensures !s.isAnonymous && s.authorName != "" ==> DisplayName(s) == s.authorName
    ensures !s.isAnonymous && s.authorName == "" && s.user.Some? ==> DisplayName(s) == s.user.value.username
    ensures !s.isAnonymous && s.authorName == "" && s.user.None? ==> DisplayName(s) == "Community Member"
  {
  }

  /** Once saved, a story never falls through to the "Community Member" fallback: it shows
      "Anonymous", its author name or its user's name. */
  lemma SavedStoryHasNamedAuthor(s: Story)
    ensures var name := DisplayName(SaveStory(s));
            name == "Anonymous" || name == s.authorName || (s.user.Some? && name == s.user.value.username)
    ensures s.user.None? && s.authorName == "" ==> DisplayName(SaveStory(s)) == "Anonymous"
  {
  }
}
