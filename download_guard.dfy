/**
 * `is_allowed_download_url`: the download proxy only fetches URLs whose
 * network location belongs to the allow-list of `Config`.  As written, the
 * test is a substring test on the lower-cased netloc; a URL that `urlparse`
 * rejects is not allowed.
 *
 * The substring test also accepts hosts that merely contain an allowed
 * domain ("instagram.com.evil.example", or "instagram.com@evil.example"
 * whose host is "evil.example").  `IsAllowedDownloadHost` is the rule the
 * guard is evidently meant to enforce: the host itself is an allowed domain
 * or a subdomain of one.  It accepts only URLs the legacy rule accepts.
 */
module DownloadGuard {
  import opened Wrappers
  import opened Errors
  import opened PyText
  import opened Url

  /** `Config.ALLOWED_DOWNLOAD_DOMAINS`. */
  const AllowedDownloadDomains: seq<string> := ["instagram.com", "cdninstagram.com", "fbcdn.net", "instagram.fcdn.net"]

  /** `any(d in text for d in domains)`. */
  function AnyContained(text: string, domains: seq<string>): (b: bool)
    ensures b <==> exists d :: d in domains && Contains(text, d)
  {
    if domains == [] then false
    else if Contains(text, domains[0]) then
      assert domains[0] in domains;
      true
    else
      assert forall d :: d in domains <==> d == domains[0] || d in domains[1..];
      AnyContained(text, domains[1..])
  }

  /** `is_allowed_download_url(url)` as written: a substring test on the lower-cased netloc. */
  function IsAllowedDownloadUrl(url: string): (ok: bool)
    ensures UrlParse(url).Failure? ==> !ok
    ensures UrlParse(url).Success? ==>
      (ok <==> exists d :: d in AllowedDownloadDomains && Contains(Lower(UrlParse(url).value.netloc), d))
  {
    match UrlParse(url)
    case Failure(_) => false
    case Success(parts) => AnyContained(Lower(parts.netloc), AllowedDownloadDomains)
  }

  /** The host inside a netloc: after the last '@' (the user information) and before the next ':' (the port). */
  function HostSpan(netloc: string): (span: (nat, nat))
    ensures span.0 <= span.1 <= |netloc|
    ensures '@' !in netloc[span.0..span.1] && ':' !in netloc[span.0..span.1]
    ensures span.1 < |netloc| ==> netloc[span.1] == ':'
    ensures span.0 > 0 ==> netloc[span.0 - 1] == '@'
  {
    var at := RFind(netloc, '@');
    var start := at + 1;
    var colon := Find(netloc[start..], ':');
    HostSpanChars(netloc, at, netloc[start..], colon);
    (start, start + colon)
  }

  /** The characters between the last '@' and the next ':' are neither. */
  lemma HostSpanChars(netloc: string, at: int, rest: string, colon: nat)
    requires -1 <= at < |netloc| && forall i :: at < i < |netloc| ==> netloc[i] != '@'
    requires rest == netloc[at + 1..] && colon <= |rest|
    requires forall i :: 0 <= i < colon ==> rest[i] != ':'
    ensures '@' !in netloc[at + 1..at + 1 + colon] && ':' !in netloc[at + 1..at + 1 + colon]
  {
    var span := netloc[at + 1..at + 1 + colon];
    forall i | 0 <= i < |span| ensures span[i] != '@' && span[i] != ':' {
      assert span[i] == netloc[at + 1 + i] == rest[i];
    }
  }

  /** The host of a netloc; a netloc without user information or port is all host. */
  function HostOf(netloc: string): (host: string)
    ensures '@' !in host && ':' !in host
    ensures '@' !in netloc && ':' !in netloc ==> host == netloc
  {
    var span := HostSpan(netloc);
    netloc[span.0..span.1]
  }

  /** `host` is `domain` or a subdomain of it. */
  predicate MatchesDomain(host: string, domain: string): (m: bool)
    ensures m ==> Contains(host, domain)
  {
    if host == domain then
      assert OccursAt(host, domain, 0);
      true
    else if |host| > |domain| && host[|host| - |domain| - 1..] == "." + domain then
      assert host[|host| - |domain|..] == (host[|host| - |domain| - 1..])[1..];
      assert OccursAt(host, domain, |host| - |domain|);
      true
    else false
  }

  /** The corrected guard: the lower-cased host is an allowed domain or one of its subdomains. */
  function IsAllowedDownloadHost(url: string): (ok: bool)
    ensures ok <==>
      UrlParse(url).Success? &&
      exists d :: d in AllowedDownloadDomains && MatchesDomain(Lower(HostOf(UrlParse(url).value.netloc)), d)
    ensures ok ==> IsAllowedDownloadUrl(url)
  {
    match UrlParse(url)
    case Failure(_) => false
    case Success(parts) =>
      var host := Lower(HostOf(parts.netloc));
      if exists d :: d in AllowedDownloadDomains && MatchesDomain(host, d) then
        var d :| d in AllowedDownloadDomains && MatchesDomain(host, d);
        MatchedHostIsContained(parts.netloc, d);
        true
      else false
  }

  /** A domain that the host matches occurs in the lower-cased netloc. */
  lemma MatchedHostIsContained(netloc: string, domain: string)
    requires MatchesDomain(Lower(HostOf(netloc)), domain)
    ensures Contains(Lower(netloc), domain)
  {
    var span := HostSpan(netloc);
    var host := Lower(HostOf(netloc));
    var q := MatchPosition(host, domain);
    LowerOfSlice(netloc, span.0, span.1);
    OccursInSlice(Lower(netloc), span.0, span.1, domain, q);
  }

  /** Where a matched domain sits in the host: at the start when equal, otherwise at the end. */
  lemma MatchPosition(host: string, domain: string) returns (q: nat)
    requires MatchesDomain(host, domain)
    ensures OccursAt(host, domain, q)
  {
    if host == domain {
      q := 0;
    } else {
      q := |host| - |domain|;
      assert host[q..] == (host[q - 1..])[1..];
    }
  }

  /** Lower-casing commutes with slicing. */
  lemma LowerOfSlice(s: string, i: nat, j: nat)
    requires i <= j <= |s|
    ensures Lower(s)[i..j] == Lower(s[i..j])
  {
  }

  /** An occurrence inside a slice is an occurrence in the whole. */
  lemma OccursInSlice(s: string, i: nat, j: nat, sub: string, q: nat)
    requires i <= j <= |s| && OccursAt(s[i..j], sub, q)
    ensures OccursAt(s, sub, i + q)
  {
    forall k | 0 <= k < |sub| ensures s[i + q + k] == sub[k] {
      assert s[i..j][q..q + |sub|][k] == sub[k];
    }
    assert s[i + q..i + q + |sub|] == sub;
  }

  lemma SimpleHost(host: string)
    requires IsSimpleHost(host)
    ensures IsPlainHost(host) && Lower(host) == host && HostOf(host) == host
  {
    assert '@' !in host && ':' !in host;
    assert RFind(host, '@') == -1;
    assert host[0..] == host;
  }

  /** An https URL on a simple host, with a plain path, is accepted by the legacy guard when the host contains an allowed domain. */
  lemma LegacyGuardOnHttpsUrl(host: string, path: string)
    requires IsSimpleHost(host) && IsPlainPath(path)
    ensures IsAllowedDownloadUrl("https://" + host + path) <==>
      exists d :: d in AllowedDownloadDomains && Contains(host, d)
  {
    SimpleHost(host);
    ParseHttpsUrl(host, path);
  }

  /** The same URL is accepted by the corrected guard when the host is an allowed domain or a subdomain of one. */
  lemma CorrectedGuardOnHttpsUrl(host: string, path: string)
    requires IsSimpleHost(host) && IsPlainPath(path)
    ensures IsAllowedDownloadHost("https://" + host + path) <==>
      exists d :: d in AllowedDownloadDomains && MatchesDomain(host, d)
  {
    SimpleHost(host);
    ParseHttpsUrl(host, path);
  }

  /** The legacy guard accepts a look-alike host that only begins with an allowed domain. */
  lemma LegacyGuardAcceptsLookalikeHost()
    ensures IsAllowedDownloadUrl("https://instagram.com.evil.example/x")
  {
    var host, path := "instagram.com.evil.example", "/x";
    LookalikeUrl(host, path);
    LookalikeHostContainsDomain(host);
    LegacyGuardOnHttpsUrl(host, path);
  }

  /** The corrected guard rejects that host. */
  lemma CorrectedGuardRejectsLookalikeHost()
    ensures !IsAllowedDownloadHost("https://instagram.com.evil.example/x")
  {
    var host, path := "instagram.com.evil.example", "/x";
    LookalikeUrl(host, path);
    LookalikeMatchesNoDomain(host);
    CorrectedGuardOnHttpsUrl(host, path);
  }

  /** The corrected guard still accepts a subdomain of an allowed CDN domain. */
  lemma GuardsAcceptCdnSubdomain()
    ensures IsAllowedDownloadHost("https://scontent.cdninstagram.com/v/a.jpg")
  {
    var host, path := "scontent.cdninstagram.com", "/v/a.jpg";
    CdnUrl(host, path);
    CdnHostMatches(host);
    CorrectedGuardOnHttpsUrl(host, path);
  }

  lemma LookalikeUrl(host: string, path: string)
    requires host == "instagram.com.evil.example" && path == "/x"
    ensures "https://instagram.com.evil.example/x" == "https://" + host + path
    ensures IsSimpleHost(host) && IsPlainPath(path)
  {
  }

  lemma LookalikeHostContainsDomain(host: string)
    requires host == "instagram.com.evil.example"
    ensures "instagram.com" in AllowedDownloadDomains && Contains(host, "instagram.com")
  {
    assert OccursAt(host, "instagram.com", 0);
  }

  lemma LookalikeMatchesNoDomain(host: string)
    requires host == "instagram.com.evil.example"
    ensures forall d :: d in AllowedDownloadDomains ==> !MatchesDomain(host, d)
  {
    forall d | d in AllowedDownloadDomains ensures !MatchesDomain(host, d) {
      assert host[|host| - 1] == 'e';
    }
  }

  lemma CdnUrl(host: string, path: string)
    requires host == "scontent.cdninstagram.com" && path == "/v/a.jpg"
    ensures "https://scontent.cdninstagram.com/v/a.jpg" == "https://" + host + path
    ensures IsSimpleHost(host) && IsPlainPath(path)
  {
  }

  lemma CdnHostMatches(host: string)
    requires host == "scontent.cdninstagram.com"
    ensures "cdninstagram.com" in AllowedDownloadDomains && MatchesDomain(host, "cdninstagram.com")
  {
    assert host[|host| - |"cdninstagram.com"| - 1..] == "." + "cdninstagram.com";
  }
}
