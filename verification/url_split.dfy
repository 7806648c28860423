/** The part of Python's `urllib.parse.urlsplit` (CPython 3.12) that yields the
    network location (`netloc`), the only component the scanner reads. */
module UrlSplit {
  import opened Wrappers
  import opened Text
  import opened Numeric

  /** WHATWG "C0 control or space": stripped from the front of every URL. */
  predicate IsC0OrSpace(c: char) {
    c <= ' '
  }

  /** Tab, carriage return and line feed are deleted anywhere in the URL. */
  predicate IsUnsafe(c: char) {
    c == '\t' || c == '\r' || c == '\n'
  }

  predicate IsSafe(c: char) {
    !IsUnsafe(c)
  }

  /** No tab, carriage return or line feed anywhere in `s`. */
  predicate AllSafe(s: string) {
    forall k :: 0 <= k < |s| ==> IsSafe(s[k])
  }

  predicate IsAsciiAlpha(c: char) {
    'a' <= c <= 'z' || 'A' <= c <= 'Z'
  }

  /** Characters allowed in a scheme name. */
  predicate IsSchemeChar(c: char) {
    IsAsciiAlpha(c) || '0' <= c <= '9' || c == '+' || c == '-' || c == '.'
  }

  /** The characters that end the network location. */
  predicate IsDelimiter(c: char) {
    c == '/' || c == '?' || c == '#'
  }

  const InvalidIpv6 := "Invalid IPv6 URL"

  /** `url.lstrip(_WHATWG_C0_CONTROL_OR_SPACE)`: drop the leading run of C0 controls and spaces. */
  function LStripC0(s: string): (r: string)
    ensures |r| <= |s| && r == s[|s| - |r|..]
    ensures forall k :: 0 <= k < |s| - |r| ==> IsC0OrSpace(s[k])
    ensures |r| > 0 ==> !IsC0OrSpace(r[0])
  {
    if |s| > 0 && IsC0OrSpace(s[0]) then LStripC0(s[1..]) else s
  }

  /** The URL after the clean-up that precedes all splitting: the leading C0 controls and
      spaces go first, then every tab, carriage return and line feed. */
  function Preprocess(url: string): (r: string)
    ensures AllSafe(r)
    ensures r == Filter(LStripC0(url), IsSafe)
  {
    Filter(LStripC0(url), IsSafe)
  }

  /** `u` opens with a scheme name ending at the ':' at index `i`: a letter, then scheme
      characters only (none of which is ':'), then the colon. */
  predicate SchemeEndsAt(u: string, i: int) {
    0 < i < |u| && u[i] == ':' && IsAsciiAlpha(u[0]) && forall k :: 0 <= k < i ==> IsSchemeChar(u[k])
  }

  /** The URL with its `scheme:` removed when it opens with one, and unchanged otherwise. */
  function AfterScheme(u: string): (r: string)
    ensures |r| <= |u| && r == u[|u| - |r|..]
    ensures forall i :: SchemeEndsAt(u, i) ==> r == u[i + 1..]
    ensures (forall i :: !SchemeEndsAt(u, i)) ==> r == u
  {
    var i := Find(u, ':');
    assert forall j :: SchemeEndsAt(u, j) ==> i == j by {
      forall j | SchemeEndsAt(u, j) ensures i == j {
        assert ':' !in u[..j] by {
          assert forall k :: 0 <= k < j ==> u[..j][k] == u[k];
        }
        FindFirst(u, ':', j);
      }
    }
    if i > 0 && IsAsciiAlpha(u[0]) && (forall k :: 0 <= k < i ==> IsSchemeChar(u[k])) then
      assert SchemeEndsAt(u, i);
      u[i + 1..]
    else u
  }

  /** One step of `_splitnetloc`: move the end to the delimiter found at `w`, if it is earlier. */
  function Earlier(delim: int, w: int): int {
    if w >= 0 then Min(delim, w) else delim
  }

  /** `_splitnetloc`: the earliest of the first '/', '?' and '#' of `s`, or its length.
      The contract characterises it as the first delimiter position. */
  function NetlocEnd(s: string): (e: nat)
    ensures e <= |s|
    ensures forall k :: 0 <= k < e ==> !IsDelimiter(s[k])
    ensures e < |s| ==> IsDelimiter(s[e])
  {
    var slash := Find(s, '/');
    var question := Find(s, '?');
    var hash := Find(s, '#');
    var e := Earlier(Earlier(Earlier(|s|, slash), question), hash);
    assert forall k :: 0 <= k < e ==> slash < 0 || s[k] in s[..slash];
    assert forall k :: 0 <= k < e ==> question < 0 || s[k] in s[..question];
    assert forall k :: 0 <= k < e ==> hash < 0 || s[k] in s[..hash];
    e
  }

  /** The authority part of `s`, which follows the `//`. */
  function Authority(s: string): string {
    s[..NetlocEnd(s)]
  }

  /** `urlsplit` rejects a netloc holding one square bracket without the other. */
  predicate BracketsUnbalanced(host: string) {
    ('[' in host) != (']' in host)
  }

  function CheckedAuthority(s: string): (r: Result<string, string>)
    ensures r.Ok? ==> r.value == Authority(s) && !BracketsUnbalanced(r.value)
    ensures r.Ok? ==> forall k :: 0 <= k < |r.value| ==> !IsDelimiter(r.value[k])
    ensures r.Ok? && AllSafe(s) ==> AllSafe(r.value)
    ensures r.Err? ==> r.error == InvalidIpv6 && BracketsUnbalanced(Authority(s))
  {
    var host := Authority(s);
    if BracketsUnbalanced(host) then Err(InvalidIpv6) else Ok(host)
  }

  /** `urlsplit(url).netloc`, or the `ValueError` message `urlsplit` raises. */
  function Netloc(url: string): (r: Result<string, string>)
    ensures r.Ok? ==> forall k :: 0 <= k < |r.value| ==> !IsDelimiter(r.value[k]) && IsSafe(r.value[k])
    ensures r.Ok? ==> !BracketsUnbalanced(r.value)
    ensures r.Err? ==> r.error == InvalidIpv6
  {
    var u := Preprocess(url);
    var rest := AfterScheme(u);
    if StartsWith(rest, "//") then
      assert AllSafe(rest[2..]) by {
        assert forall k :: 0 <= k < |rest| - 2 ==> rest[2..][k] == u[|u| - |rest| + 2 + k];
      }
      CheckedAuthority(rest[2..])
    else Ok("")
  }

  /** A host with no delimiter followed by nothing or by a delimiter: the authority is the host. */
  lemma AuthorityOfHost(host: string, tail: string)
    requires forall k :: 0 <= k < |host| ==> !IsDelimiter(host[k])
    requires |tail| == 0 || IsDelimiter(tail[0])
    ensures Authority(host + tail) == host
  {
    assert (host + tail)[..|host|] == host;
  }

  /** The clean-up leaves a web scheme alone and filters only what follows it. */
  lemma PreprocessWeb(scheme: string, rest: string)
    requires scheme == "http://" || scheme == "https://"
    ensures Preprocess(scheme + rest) == scheme + Filter(rest, IsSafe)
  {
    assert LStripC0(scheme + rest) == scheme + rest by {
      assert (scheme + rest)[0] == 'h';
    }
    assert Filter(scheme, IsSafe) == scheme by {
      assert forall i :: 0 <= i < |scheme| ==> IsSafe(scheme[i]);
      FilterIdentity(scheme, IsSafe);
    }
    FilterConcat(scheme, rest, IsSafe);
  }

  /** A web scheme is recognised and removed, leaving the `//` and what follows. */
  lemma AfterWebScheme(scheme: string, rest: string)
    requires scheme == "http://" || scheme == "https://"
    ensures AfterScheme(scheme + rest) == "//" + rest
  {
    var u := scheme + rest;
    var colon := |scheme| - 3;
    assert u[..colon] == scheme[..colon];
    assert IsAsciiAlpha(u[0]) && (forall k :: 0 <= k < colon ==> IsSchemeChar(u[k])) by {
      assert forall k :: 0 <= k < colon ==> u[k] == scheme[k];
      assert forall k :: 0 <= k < colon ==> IsAsciiAlpha(scheme[k]);
    }
    assert Find(u, ':') == colon by {
      FindFirst(u, ':', colon);
    }
    assert u[colon + 1..] == "//" + rest;
  }

  /** For a URL that starts with `http://` or `https://`, the netloc is the checked authority
      of the rest once tabs and line breaks are removed. */
  lemma WebNetloc(scheme: string, rest: string)
    requires scheme == "http://" || scheme == "https://"
    ensures Netloc(scheme + rest) == CheckedAuthority(Filter(rest, IsSafe))
  {
    PreprocessWeb(scheme, rest);
    AfterWebScheme(scheme, Filter(rest, IsSafe));
    assert ("//" + Filter(rest, IsSafe))[2..] == Filter(rest, IsSafe);
  }

  /** Without a `/` there is no `//` to introduce an authority: the network location is empty,
      whatever the URL holds otherwise (a bare host such as `example.com`, or a host and port
      such as `example.com:8080`, whose host `urlsplit` takes for a scheme). */
  lemma SlashlessNetloc(url: string)
    requires '/' !in url
    ensures Netloc(url) == Ok("")
  {
    NoSlashAfterCleanUp(url);
    NoAuthorityWithoutSlash(Preprocess(url));
  }

  /** What follows the scheme is part of the URL, so without a `/` it cannot open with `//`. */
  lemma NoAuthorityWithoutSlash(u: string)
    requires '/' !in u
    ensures !StartsWith(AfterScheme(u), "//")
  {
    var rest := AfterScheme(u);
    if |rest| > 0 {
      assert rest[0] == u[|u| - |rest|];
    }
  }

  /** The clean-up only removes characters: it introduces no `/`. */
  lemma NoSlashAfterCleanUp(url: string)
    requires '/' !in url
    ensures '/' !in Preprocess(url)
  {
    FilterCounts(LStripC0(url), IsSafe);
    assert multiset(Preprocess(url))['/'] == 0;
  }

  /** A bare host carries no network location. */
  lemma SchemelessHost()
    ensures Netloc("example.com") == Ok("")
  {
    SlashlessNetloc("example.com");
  }

  /** A scheme-relative URL `//rest`: the network location is the checked authority of the
      rest once tabs and line breaks are removed. */
  lemma SchemeRelativeNetloc(rest: string)
    ensures Netloc("//" + rest) == CheckedAuthority(Filter(rest, IsSafe))
  {
    var url := "//" + rest;
    assert LStripC0(url) == url by {
      assert url[0] == '/';
    }
    assert Filter("//", IsSafe) == "//" by {
      FilterIdentity("//", IsSafe);
    }
    FilterConcat("//", rest, IsSafe);
    var u := "//" + Filter(rest, IsSafe);
    assert Preprocess(url) == u;
    assert forall i :: !SchemeEndsAt(u, i) by {
      assert !IsAsciiAlpha(u[0]);
    }
    assert u[2..] == Filter(rest, IsSafe);
  }

  /** `Find` returns an index that holds `c` after a prefix free of `c`. */
  lemma FindFirst(s: string, c: char, i: int)
    requires 0 <= i < |s| && s[i] == c && c !in s[..i]
    ensures Find(s, c) == i
  {
  }
}
