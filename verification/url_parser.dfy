/** `extract_domain_from_url` (scanner/utils/url_parser.py): default the scheme,
    take the netloc, drop one leading `www.`. */
module UrlParser {
  import opened Wrappers
  import opened Text
  import opened UrlSplit

  const DefaultScheme := "https://"
  const WwwPrefix := "www."
  const InvalidUrlPrefix := "Invalid URL: "

  predicate HasWebScheme(url: string) {
    StartsWith(url, "http://") || StartsWith(url, "https://")
  }

  /** The URL with `https://` prepended unless it already names a web scheme. */
  function WithScheme(url: string): (r: string)
    ensures HasWebScheme(r)
  {
    if HasWebScheme(url) then url
    else
      assert (DefaultScheme + url)[..|DefaultScheme|] == DefaultScheme;
      DefaultScheme + url
  }

  /** The host without one leading, case-sensitive `www.`: a host starting with it is that
      prefix followed by the result, any other host is returned as it is. */
  function StripWww(host: string): (r: string)
    ensures StartsWith(host, WwwPrefix) ==> host == WwwPrefix + r
    ensures !StartsWith(host, WwwPrefix) ==> r == host
  {
    if StartsWith(host, WwwPrefix) then host[|WwwPrefix|..] else host
  }

  /** The domain of `url`, or the `ValueError` message raised for an unparsable one. */
  function ExtractDomain(url: string): (r: Result<string, string>)
    ensures r.Ok? ==> forall k :: 0 <= k < |r.value| ==> !IsDelimiter(r.value[k])
    ensures r.Err? ==> StartsWith(r.error, InvalidUrlPrefix)
  {
    FromNetloc(Netloc(WithScheme(url)))
  }

  /** The domain for a parsed network location, or the re-raised error with its prefix. */
  function FromNetloc(netloc: Result<string, string>): (r: Result<string, string>)
    ensures netloc.Ok? ==> r.Ok? && |r.value| <= |netloc.value| && r.value == netloc.value[|netloc.value| - |r.value|..]
    ensures netloc.Err? ==> r.Err? && StartsWith(r.error, InvalidUrlPrefix)
  {
    match netloc
    case Ok(host) => Ok(StripWww(host))
    case Err(e) =>
      assert (InvalidUrlPrefix + e)[..|InvalidUrlPrefix|] == InvalidUrlPrefix;
      Err(InvalidUrlPrefix + e)
  }

  /** A host that the parser keeps whole: no delimiter, tab, line break or lone bracket. */
  predicate PlainHost(host: string) {
    && (forall k :: 0 <= k < |host| ==> !IsDelimiter(host[k]) && IsSafe(host[k]))
    && !BracketsUnbalanced(host)
  }

  /** The URL without its `http://` or `https://` (after defaulting the scheme). */
  function AfterWebPrefix(url: string): string {
    var u := WithScheme(url);
    if StartsWith(u, "https://") then u[8..] else u[7..]
  }

  /** The domain is the authority of the part after the scheme, with tabs and line breaks
      removed, less one leading `www.`; the only failure is a lone square bracket in it. */
  lemma ExtractDomainSpec(url: string)
    ensures var host := Authority(Filter(AfterWebPrefix(url), IsSafe));
            ExtractDomain(url) == if BracketsUnbalanced(host) then Err(InvalidUrlPrefix + InvalidIpv6) else Ok(StripWww(host))
  {
    var u := WithScheme(url);
    var scheme := if StartsWith(u, "https://") then "https://" else "http://";
    assert u == scheme + AfterWebPrefix(url);
    WebNetloc(scheme, AfterWebPrefix(url));
  }

  /** A URL without a web scheme yields the same domain as the URL with `https://` in front. */
  lemma SchemeDefaulted(url: string)
    requires !HasWebScheme(url)
    ensures ExtractDomain(url) == ExtractDomain(DefaultScheme + url)
  {
    assert WithScheme(DefaultScheme + url) == DefaultScheme + url;
  }

  /** Behind an explicit web scheme, `AfterWebPrefix` returns what follows the scheme. */
  lemma WebPrefixOf(scheme: string, rest: string)
    requires scheme == "http://" || scheme == "https://"
    ensures AfterWebPrefix(scheme + rest) == rest
  {
    var u := scheme + rest;
    assert u[..|scheme|] == scheme;
    assert HasWebScheme(u);
    if scheme == "http://" {
      assert u[4] == ':';
    }
  }

  /** Behind an explicit web scheme, the domain comes from the checked authority of the rest
      once tabs and line breaks are removed. */
  lemma WebDomain(scheme: string, rest: string)
    requires scheme == "http://" || scheme == "https://"
    ensures ExtractDomain(scheme + rest) == FromNetloc(CheckedAuthority(Filter(rest, IsSafe)))
  {
    assert WithScheme(scheme + rest) == scheme + rest by {
      assert (scheme + rest)[..|scheme|] == scheme;
    }
    WebNetloc(scheme, rest);
  }

  /** The authority of a plain host followed by nothing or by a delimiter, once tabs and
      line breaks are removed, is the host. */
  lemma FilteredAuthority(host: string, tail: string)
    requires PlainHost(host)
    requires |tail| == 0 || IsDelimiter(tail[0])
    ensures Authority(Filter(host + tail, IsSafe)) == host
    ensures CheckedAuthority(Filter(host + tail, IsSafe)) == Ok(host)
  {
    var t := Filter(tail, IsSafe);
    assert Filter(host + tail, IsSafe) == host + t by {
      FilterConcat(host, tail, IsSafe);
      FilterIdentity(host, IsSafe);
    }
    assert |t| == 0 || IsDelimiter(t[0]) by {
      if |tail| > 0 {
        assert t == [tail[0]] + Filter(tail[1..], IsSafe);
      }
    }
    AuthorityOfHost(host, t);
  }

  /** Behind a web scheme, a plain host followed by nothing or by a path, query or fragment
      comes back unchanged, port included, unless it starts with `www.`. */
  lemma PlainHostKept(scheme: string, host: string, tail: string)
    requires scheme == "http://" || scheme == "https://"
    requires PlainHost(host) && !StartsWith(host, WwwPrefix)
    requires |tail| == 0 || IsDelimiter(tail[0])
    ensures ExtractDomain(scheme + host + tail) == Ok(host)
  {
    assert scheme + host + tail == scheme + (host + tail);
    FilteredAuthority(host, tail);
    WebDomain(scheme, host + tail);
  }

  /** Exactly one leading `www.` is removed: the rest comes back as is, even when it starts
      with another `www.` (`www.www.a.com` gives `www.a.com`). */
  lemma OneWwwStripped(scheme: string, host: string, tail: string)
    requires scheme == "http://" || scheme == "https://"
    requires PlainHost(host)
    requires |tail| == 0 || IsDelimiter(tail[0])
    ensures ExtractDomain(scheme + WwwPrefix + host + tail) == Ok(host)
  {
    var h := WwwPrefix + host;
    assert scheme + WwwPrefix + host + tail == scheme + (h + tail);
    assert PlainHost(h) by {
      assert forall k :: 0 <= k < |host| ==> h[k + 4] == host[k];
      assert '[' in h <==> '[' in host;
      assert ']' in h <==> ']' in host;
    }
    assert StripWww(h) == host by {
      assert h[..|WwwPrefix|] == WwwPrefix;
      assert h[|WwwPrefix|..] == host;
    }
    FilteredAuthority(h, tail);
    WebDomain(scheme, h + tail);
  }

  /** `www.` is matched case-sensitively: a host starting with `WWW.` is kept whole. */
  lemma UpperCaseWwwKept(scheme: string, host: string)
    requires scheme == "http://" || scheme == "https://"
    requires PlainHost(host) && StartsWith(host, "WWW.")
    ensures ExtractDomain(scheme + host) == Ok(host)
  {
    assert !StartsWith(host, WwwPrefix) by {
      assert host[..4][0] == 'W';
    }
    PlainHostKept(scheme, host, "");
    assert scheme + host + "" == scheme + host;
  }

  /** An empty host is not an error: it yields the empty domain. */
  lemma EmptyHost(scheme: string, tail: string)
    requires scheme == "http://" || scheme == "https://"
    requires |tail| == 0 || IsDelimiter(tail[0])
    ensures ExtractDomain(scheme + tail) == Ok("")
  {
    PlainHostKept(scheme, "", tail);
    assert scheme + "" + tail == scheme + tail;
  }

  /** The empty URL is defaulted to `https://` and yields the empty domain. */
  lemma EmptyUrl()
    ensures ExtractDomain("") == Ok("")
  {
    SchemeDefaulted("");
    EmptyHost(DefaultScheme, "");
    assert DefaultScheme + "" == DefaultScheme;
  }

  /** A bare `www.` host gives the empty domain (while its network location is `www.`,
      as `BareWwwNetloc` shows). */
  lemma BareWww(scheme: string, tail: string)
    requires scheme == "http://" || scheme == "https://"
    requires |tail| == 0 || IsDelimiter(tail[0])
    ensures ExtractDomain(scheme + WwwPrefix + tail) == Ok("")
  {
    assert scheme + WwwPrefix + tail == scheme + (WwwPrefix + tail);
    assert PlainHost(WwwPrefix) by {
      assert '[' !in WwwPrefix && ']' !in WwwPrefix;
    }
    assert StripWww(WwwPrefix) == "";
    FilteredAuthority(WwwPrefix, tail);
    WebDomain(scheme, WwwPrefix + tail);
  }

  /** The network location of a bare `www.` host is `www.` itself. */
  lemma BareWwwNetloc(scheme: string, tail: string)
    requires scheme == "http://" || scheme == "https://"
    requires |tail| == 0 || IsDelimiter(tail[0])
    ensures Netloc(scheme + WwwPrefix + tail) == Ok(WwwPrefix)
  {
    assert scheme + WwwPrefix + tail == scheme + (WwwPrefix + tail);
    assert PlainHost(WwwPrefix) by {
      assert '[' !in WwwPrefix && ']' !in WwwPrefix;
    }
    FilteredAuthority(WwwPrefix, tail);
    WebNetloc(scheme, WwwPrefix + tail);
  }
}
