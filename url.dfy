/**
 * The part of Python's `urllib.parse.urlparse` (CPython 3.12) that the input
 * classifier and the download-domain guard depend on: leading C0 controls and
 * spaces are dropped, tab, CR and LF are removed everywhere, a scheme is split
 * off at the first ':' when everything before it is a valid scheme, a netloc
 * follows a leading "//" up to the first '/', '?' or '#', a netloc with an
 * unmatched '[' or ']' raises ValueError, then the fragment ('#') and the
 * query ('?') are split off, and for the schemes that use parameters a ';'
 * in the last path segment starts the parameters.
 */
module Url {
  import opened Wrappers
  import opened Errors
  import opened PyText

  datatype UrlParts = UrlParts(
    scheme: string, netloc: string, path: string, params: string, query: string, fragment: string)

  /** What `urlsplit` strips from the front: the C0 controls and the space. */
  predicate IsC0OrSpace(c: char) { c <= ' ' }

  /** What `urlsplit` removes from anywhere in the URL. */
  predicate IsUnsafe(c: char) { c == '\t' || c == '\r' || c == '\n' }

  predicate IsAsciiAlpha(c: char) { 'a' <= c <= 'z' || 'A' <= c <= 'Z' }

  predicate IsSchemeChar(c: char) {
    IsAsciiAlpha(c) || '0' <= c <= '9' || c == '+' || c == '-' || c == '.'
  }

  /** The schemes for which `urlparse` splits off `;params`. */
  const UsesParams: seq<string> := [
    "", "ftp", "hdl", "prospero", "http", "imap", "https", "shttp", "rtsp",
    "rtsps", "rtspu", "sip", "sips", "mms", "sftp", "tel"]

  predicate EndsNetloc(c: char) { c == '/' || c == '?' || c == '#' }

  function RemoveUnsafe(s: string): (r: string)
    ensures forall i :: 0 <= i < |r| ==> !IsUnsafe(r[i])
    ensures (forall i :: 0 <= i < |s| ==> !IsUnsafe(s[i])) ==> r == s
  {
    if s == [] then []
    else (if IsUnsafe(s[0]) then [] else [s[0]]) + RemoveUnsafe(s[1..])
  }

  /** The first index whose character satisfies `p`, or |s|. */
  function FirstWhere(s: string, p: char -> bool): (k: nat)
    ensures k <= |s|
    ensures k < |s| ==> p(s[k])
    ensures forall i :: 0 <= i < k ==> !p(s[i])
  {
    if s == [] then 0 else if p(s[0]) then 0 else 1 + FirstWhere(s[1..], p)
  }

  /** Splits off a scheme: the lower-cased text before the first ':', when it is a valid scheme. */
  function SplitScheme(url: string): (r: (string, string))
    ensures r.0 == [] ==> r.1 == url
    ensures r.0 != [] ==> |r.0| < |url| && url == url[..|r.0|] + ":" + r.1 && Lower(url[..|r.0|]) == r.0
  {
    var i := Find(url, ':');
    if 0 < i < |url| && IsAsciiAlpha(url[0]) && forall j :: 0 <= j < i ==> IsSchemeChar(url[j]) then
      assert url == url[..i] + ":" + url[i + 1..];
      (Lower(url[..i]), url[i + 1..])
    else ("", url)
  }

  /** `_splitparams`: a ';' after the last '/' (or anywhere, without a '/') starts the parameters. */
  function SplitParams(path: string): (r: (string, string))
    requires ';' in path
    ensures |r.0| <= |path| && r.0 == path[..|r.0|]
  {
    var slash := RFind(path, '/');
    var from := if slash < 0 then 0 else slash;
    var i := Find(path[from..], ';');
    if i == |path[from..]| then (path, "")
    else (path[..from + i], path[from + i + 1..])
  }

  /** After a leading "//", the netloc runs up to the first '/', '?' or '#': (netloc, remainder). */
  function SplitNetloc(rest: string): (r: (string, string))
    requires |rest| >= 2
    ensures forall i :: 0 <= i < |r.0| ==> !EndsNetloc(r.0[i])
    ensures r.1 == [] || EndsNetloc(r.1[0])
    ensures rest == rest[..2] + r.0 + r.1
  {
    var k := FirstWhere(rest[2..], EndsNetloc);
    assert rest == rest[..2] + rest[2..2 + k] + rest[2 + k..];
    (rest[2..2 + k], rest[2 + k..])
  }

  /** Splits what follows the netloc into path, parameters, query and fragment. */
  function SplitPath(scheme: string, netloc: string, s: string): (r: UrlParts)
    ensures r.scheme == scheme && r.netloc == netloc
    ensures '#' !in r.path && '?' !in r.path
  {
    var hash := Find(s, '#');
    var beforeHash := s[..hash];
    var fragment := if hash < |s| then s[hash + 1..] else "";
    var question := Find(beforeHash, '?');
    var path := beforeHash[..question];
    var query := if question < |beforeHash| then beforeHash[question + 1..] else "";
    assert '#' !in path && '?' !in path;
    if scheme in UsesParams && ';' in path then
      var (p, params) := SplitParams(path);
      assert forall i :: 0 <= i < |p| ==> p[i] == path[i];
      UrlParts(scheme, netloc, p, params, query, fragment)
    else UrlParts(scheme, netloc, path, "", query, fragment)
  }

  /** `urlparse(url)`; the only exception it can raise here is ValueError. */
  function UrlParse(url: string): (r: Result<UrlParts, Exception>)
    ensures r.Failure? ==> r.error == ValueError("Invalid IPv6 URL")
    ensures r.Success? ==> '#' !in r.value.path && '?' !in r.value.path
    ensures r.Success? ==> forall i :: 0 <= i < |r.value.netloc| ==> !EndsNetloc(r.value.netloc[i])
  {
    var cleaned := RemoveUnsafe(TrimStart(url, IsC0OrSpace));
    var (scheme, rest) := SplitScheme(cleaned);
    if |rest| >= 2 && rest[..2] == "//" then
      var (netloc, remainder) := SplitNetloc(rest);
      if ('[' in netloc) != (']' in netloc) then Failure(ValueError("Invalid IPv6 URL"))
      else Success(SplitPath(scheme, netloc, remainder))
    else Success(SplitPath(scheme, "", rest))
  }

  /** A host as it may stand between "https://" and the path without changing how the URL splits. */
  predicate IsPlainHost(host: string) {
    forall i :: 0 <= i < |host| ==>
      !IsUnsafe(host[i]) && !EndsNetloc(host[i]) && host[i] != '[' && host[i] != ']'
  }

  /** A path that has no query, fragment or parameters and survives unchanged. */
  predicate IsPlainPath(path: string) {
    (path == [] || path[0] == '/') &&
    forall i :: 0 <= i < |path| ==>
      !IsUnsafe(path[i]) && path[i] != '?' && path[i] != '#' && path[i] != ';'
  }

  /** A host written in lower-case letters, digits, '-' and '.' stands for itself. */
  predicate IsSimpleHost(host: string) {
    forall i :: 0 <= i < |host| ==>
      'a' <= host[i] <= 'z' || '0' <= host[i] <= '9' || host[i] == '-' || host[i] == '.'
  }

  /** An https URL built from a plain host and a plain path parses back into those two parts. */
  lemma {:induction false} ParseHttpsUrl(host: string, path: string)
    requires IsPlainHost(host) && IsPlainPath(path)
    ensures UrlParse("https://" + host + path) == Success(UrlParts("https", host, path, "", "", ""))
  {
    HttpsPrefix(host, path);
    HttpsRest(host, path);
    ParseWithNetloc("https://" + host + path, "https", "//" + host + path, host, path);
  }

  /** The front of an https URL: nothing to clean, and the scheme is "https". */
  lemma HttpsPrefix(host: string, path: string)
    requires IsPlainHost(host) && IsPlainPath(path)
    ensures RemoveUnsafe(TrimStart("https://" + host + path, IsC0OrSpace)) == "https://" + host + path
    ensures SplitScheme("https://" + host + path) == ("https", "//" + host + path)
  {
    HttpsUrlIsClean(host, path);
    HttpsColon(host, path);
    HttpsScheme("https://" + host + path, "//" + host + path);
  }

  /** What follows "https:": a bracket-free netloc and a plain path. */
  lemma HttpsRest(host: string, path: string)
    requires IsPlainHost(host) && IsPlainPath(path)
    ensures |"//" + host + path| >= 2 && ("//" + host + path)[..2] == "//"
    ensures SplitNetloc("//" + host + path) == (host, path)
    ensures '[' !in host && ']' !in host
    ensures SplitPath("https", host, path) == UrlParts("https", host, path, "", "", "")
  {
    HttpsNetloc(host, path);
    PlainPathSplit(host, path);
  }

  /** How `UrlParse` proceeds on a clean URL with a scheme and a bracket-free netloc. */
  lemma ParseWithNetloc(url: string, scheme: string, rest: string, netloc: string, remainder: string)
    requires RemoveUnsafe(TrimStart(url, IsC0OrSpace)) == url
    requires SplitScheme(url) == (scheme, rest)
    requires |rest| >= 2 && rest[..2] == "//"
    requires SplitNetloc(rest) == (netloc, remainder)
    requires '[' !in netloc && ']' !in netloc
    ensures UrlParse(url) == Success(SplitPath(scheme, netloc, remainder))
  {
  }

  lemma HttpsUrlIsClean(host: string, path: string)
    requires IsPlainHost(host) && IsPlainPath(path)
    ensures RemoveUnsafe(TrimStart("https://" + host + path, IsC0OrSpace)) == "https://" + host + path
  {
    HttpsUrlChars(host, path);
    NothingToClean("https://" + host + path);
  }

  lemma HttpsUrlChars(host: string, path: string)
    requires IsPlainHost(host) && IsPlainPath(path)
    ensures var url := "https://" + host + path;
      url != [] && !IsC0OrSpace(url[0]) && forall i :: 0 <= i < |url| ==> !IsUnsafe(url[i])
  {
    var url := "https://" + host + path;
    assert url[0] == 'h';
    forall i | 0 <= i < |url| ensures !IsUnsafe(url[i]) {
      if i < 8 {
      } else if i < 8 + |host| {
        assert url[i] == host[i - 8];
      } else {
        assert url[i] == path[i - 8 - |host|];
      }
    }
  }

  /** "https://" + host + path is "https:" followed by the rest. */
  lemma HttpsColon(host: string, path: string)
    ensures "https://" + host + path == "https:" + ("//" + host + path)
  {
  }

  lemma HttpsScheme(url: string, rest: string)
    requires url == "https:" + rest
    ensures SplitScheme(url) == ("https", rest)
  {
    assert forall i :: 0 <= i < 5 ==> url[i] != ':';
    assert url[5] == ':';
    assert Find(url, ':') == 5;
    assert url[..5] == "https";
    assert Lower("https") == "https";
    assert url[6..] == rest;
  }

  lemma HttpsNetloc(host: string, path: string)
    requires IsPlainHost(host) && IsPlainPath(path)
    ensures SplitNetloc("//" + host + path) == (host, path)
  {
    var rest := "//" + host + path;
    var afterSlashes := rest[2..];
    assert afterSlashes == host + path;
    assert FirstWhere(afterSlashes, EndsNetloc) == |host| by {
      assert forall i :: 0 <= i < |host| ==> afterSlashes[i] == host[i];
      assert |host| < |afterSlashes| ==> afterSlashes[|host|] == path[0];
    }
    assert rest[2..2 + |host|] == host;
    assert rest[2 + |host|..] == path;
  }

  lemma PlainPathSplit(host: string, path: string)
    requires IsPlainPath(path)
    ensures SplitPath("https", host, path) == UrlParts("https", host, path, "", "", "")
  {
    assert '#' !in path && '?' !in path && ';' !in path;
    PlainSplit("https", host, path);
  }

  /** A path without '#', '?' or ';' is the whole of what follows the netloc. */
  lemma PlainSplit(scheme: string, netloc: string, path: string)
    requires '#' !in path && '?' !in path && ';' !in path
    ensures SplitPath(scheme, netloc, path) == UrlParts(scheme, netloc, path, "", "", "")
  {
    assert Find(path, '#') == |path|;
    assert path[..|path|] == path;
    assert Find(path, '?') == |path|;
  }

  /** A URL that starts with a visible character and has no tab, CR or LF is left as it is. */
  lemma NothingToClean(url: string)
    requires url != [] && !IsC0OrSpace(url[0])
    requires forall i :: 0 <= i < |url| ==> !IsUnsafe(url[i])
    ensures RemoveUnsafe(TrimStart(url, IsC0OrSpace)) == url
  {
    assert TrimStart(url, IsC0OrSpace) == url;
  }

  /** A URL without ':' has no scheme. */
  lemma NoScheme(url: string)
    requires ':' !in url
    ensures SplitScheme(url) == ("", url)
  {
    assert Find(url, ':') == |url|;
  }

  /**
   * A URL that has no scheme, does not start with "//" and holds none of the
   * characters that split it parses into a bare path.
   */
  lemma ParsePlainPath(url: string)
    requires url != [] && !IsC0OrSpace(url[0]) && url[0] != '/'
    requires forall i :: 0 <= i < |url| ==> !IsUnsafe(url[i])
    requires ':' !in url && '#' !in url && '?' !in url && ';' !in url
    ensures UrlParse(url) == Success(UrlParts("", "", url, "", "", ""))
  {
    NothingToClean(url);
    NoScheme(url);
    PlainSplit("", "", url);
  }
}
