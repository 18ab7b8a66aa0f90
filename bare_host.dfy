/**
 * Input such as "instagram.com/natgeo", a profile address typed without
 * "https://", holds the service domain and so takes the URL branch of
 * `parse_instagram_input`.  Without a scheme, `urlparse` puts everything in
 * the path, so the first path segment is the host itself and the classifier
 * answers `("username", "instagram.com")`.
 *
 * `ClassifyCorrected` reads the path relative to the site: when the URL has
 * no netloc and its first segment is the host, that segment is dropped.  On
 * every URL that has a netloc it agrees with the classifier as written.
 */
module BareHostInput {
  import opened Wrappers
  import opened Errors
  import opened PyText
  import opened Url
  import opened InputClassifier

  /** The path segments relative to the site: a leading segment holding the domain is the host when there is no netloc. */
  function SiteRelativeParts(url: UrlParts): (parts: seq<string>)
    ensures url.netloc != "" ==> parts == PathParts(url.path)
    ensures |parts| <= |PathParts(url.path)|
  {
    var parts := PathParts(url.path);
    if url.netloc == "" && parts != [] && Contains(parts[0], ServiceDomain) then parts[1..] else parts
  }

  /** The classifier with the site-relative reading of the path. */
  function ClassifyCorrected(userInput: string): (r: Result<InputRef, Exception>)
    ensures r.Failure? ==> r.error.ValueError? && Contains(Strip(userInput), ServiceDomain)
  {
    var s := Strip(userInput);
    if Contains(s, ServiceDomain) then
      match UrlParse(s)
      case Failure(e) => Failure(e)
      case Success(url) => ClassifyPath(SiteRelativeParts(url))
    else
      Success(Username(Handle(s)))
  }

  /**
   * Wherever the input is not a URL, has a netloc or fails to parse, the
   * corrected classifier answers as the original.
   */
  lemma CorrectedAgreesWhenNetlocPresent(userInput: string)
    requires UrlParse(Strip(userInput)).Success? ==> UrlParse(Strip(userInput)).value.netloc != ""
    ensures ClassifyCorrected(userInput) == Classify(userInput)
  {
  }

  /** `host/name` with no scheme: the parser returns it whole as the path. */
  lemma ParseBareHostPath(host: string, name: string)
    requires host != [] && IsSimpleHost(host) && IsSegment(name) && IsPlainPath("/" + name)
    requires ':' !in name
    ensures UrlParse(host + "/" + name) == Success(UrlParts("", "", host + "/" + name, "", "", ""))
  {
    BareHostChars(host, name);
    ParsePlainPath(host + "/" + name);
  }

  /** The characters of `host/name`: none is removed by the parser or splits it. */
  lemma BareHostChars(host: string, name: string)
    requires host != [] && IsSimpleHost(host) && IsPlainPath("/" + name) && ':' !in name
    ensures var s := host + "/" + name;
      && !IsC0OrSpace(s[0]) && s[0] != '/'
      && (forall i :: 0 <= i < |s| ==> !IsUnsafe(s[i]))
      && ':' !in s && '#' !in s && '?' !in s && ';' !in s
  {
    var s := host + "/" + name;
    assert s[0] == host[0];
    forall i | 0 <= i < |s| ensures !IsUnsafe(s[i]) && s[i] != ':' && s[i] != '#' && s[i] != '?' && s[i] != ';' {
      if i < |host| {
        assert s[i] == host[i];
      } else {
        assert s[i] == ("/" + name)[i - |host|];
      }
    }
  }

  /** `host/name` splits into the two segments. */
  lemma BareHostParts(host: string, name: string)
    requires IsSegment(host) && IsSegment(name)
    ensures PathParts(host + "/" + name) == [host, name]
  {
    assert JoinPath([name]) == "/" + name by {
      assert [name][1..] == [];
    }
    assert host + JoinPath([name]) == host + "/" + name;
    SplitSegmentThenPath(host, [name]);
    assert [host] + [name] == [host, name];
    assert Split(host + "/" + name, '/') == [host, name];
    assert forall i :: 0 <= i < 2 ==> IsSegment([host, name][i]);
    NonEmptyOfSegments([host, name]);
  }

  /** The conditions under which `host/name` is a bare profile address on a host of the service. */
  predicate IsBareProfile(host: string, name: string) {
    && host != [] && IsSimpleHost(host) && Contains(host, ServiceDomain)
    && IsSegment(name) && IsPlainPath("/" + name) && ':' !in name
    && name != "highlights" && name != "stories"
    && !IsSpace(name[|name| - 1])
  }

  /** The URL branch receives `host/name` unchanged. */
  lemma BareProfileIsUrl(host: string, name: string)
    requires IsBareProfile(host, name)
    ensures Strip(host + "/" + name) == host + "/" + name
    ensures Contains(host + "/" + name, ServiceDomain)
    ensures UrlParse(host + "/" + name) == Success(UrlParts("", "", host + "/" + name, "", "", ""))
    ensures PathParts(host + "/" + name) == [host, name]
  {
    assert '/' !in host by {
      assert forall i :: 0 <= i < |host| ==> host[i] != '/';
    }
    BareHostParts(host, name);
    BareProfileContainsDomain(host, name);
    BareProfileIsStripped(host, name);
    ParseBareHostPath(host, name);
  }

  lemma BareProfileIsStripped(host: string, name: string)
    requires IsBareProfile(host, name)
    ensures Strip(host + "/" + name) == host + "/" + name
  {
    var s := host + "/" + name;
    assert s[|s| - 1] == name[|name| - 1];
    assert s[0] == host[0];
    StripUnchanged(s);
  }

  lemma BareProfileContainsDomain(host: string, name: string)
    requires IsBareProfile(host, name)
    ensures Contains(host + "/" + name, ServiceDomain)
  {
    assert [] + host + ("/" + name) == host + "/" + name;
    ContainsInMiddle([], host, "/" + name, ServiceDomain);
  }

  /** A host that holds the service domain is not one of the two keywords. */
  lemma ServiceHostIsNoKeyword(host: string)
    requires Contains(host, ServiceDomain)
    ensures host != "highlights" && host != "stories"
  {
    var i: nat :| OccursAt(host, ServiceDomain, i);
    assert host[i + 9] == ServiceDomain[9];
    assert '.' in host;
  }

  /** As written, a bare profile address names the host instead of the user. */
  lemma {:induction false} BareProfileNamesTheHost(host: string, name: string)
    requires IsBareProfile(host, name)
    ensures Classify(host + "/" + name) == Success(Username(host))
  {
    ServiceHostIsNoKeyword(host);
    assert ClassifyPath([host, name]) == Success(Username(host));
    BareProfileIsUrl(host, name);
    UrlBranch(host + "/" + name, UrlParts("", "", host + "/" + name, "", "", ""));
  }

  /** How the corrected classifier proceeds on input that holds the domain and parses. */
  lemma CorrectedUrlBranch(s: string, url: UrlParts)
    requires Strip(s) == s && Contains(s, ServiceDomain) && UrlParse(s) == Success(url)
    ensures ClassifyCorrected(s) == ClassifyPath(SiteRelativeParts(url))
  {
  }

  lemma HostSegmentDropped(url: UrlParts, host: string, name: string)
    requires url.netloc == "" && PathParts(url.path) == [host, name] && Contains(host, ServiceDomain)
    ensures SiteRelativeParts(url) == [name]
  {
    assert [host, name][1..] == [name];
  }

  lemma SingleSegmentNamesUser(name: string)
    requires name != "highlights" && name != "stories"
    ensures ClassifyPath([name]) == Success(Username(name))
  {
  }

  /** Corrected, a bare profile address names the user. */
  lemma {:induction false} CorrectedBareProfileNamesTheUser(host: string, name: string)
    requires IsBareProfile(host, name)
    ensures ClassifyCorrected(host + "/" + name) == Success(Username(name))
  {
    SingleSegmentNamesUser(name);
    BareProfileSiteRelative(host, name);
    BareProfileCorrectedBranch(host, name);
  }

  lemma BareProfileSiteRelative(host: string, name: string)
    requires IsBareProfile(host, name)
    ensures SiteRelativeParts(UrlParts("", "", host + "/" + name, "", "", "")) == [name]
  {
    assert '/' !in host by {
      assert forall i :: 0 <= i < |host| ==> host[i] != '/';
    }
    BareHostParts(host, name);
    HostSegmentDropped(UrlParts("", "", host + "/" + name, "", "", ""), host, name);
  }

  lemma BareProfileCorrectedBranch(host: string, name: string)
    requires IsBareProfile(host, name)
    ensures ClassifyCorrected(host + "/" + name)
      == ClassifyPath(SiteRelativeParts(UrlParts("", "", host + "/" + name, "", "", "")))
  {
    BareProfileIsUrl(host, name);
    CorrectedUrlBranch(host + "/" + name, UrlParts("", "", host + "/" + name, "", "", ""));
  }

  /** The concrete case as written: "instagram.com/natgeo" names the user "instagram.com". */
  lemma NatGeoNamesTheHost()
    ensures Classify("instagram.com/natgeo") == Success(Username("instagram.com"))
  {
    assert "instagram.com" + "/" + "natgeo" == "instagram.com/natgeo";
    NatGeoIsBareProfile("instagram.com", "natgeo");
    BareProfileNamesTheHost("instagram.com", "natgeo");
  }

  /** The concrete case corrected: "instagram.com/natgeo" names the user "natgeo". */
  lemma NatGeoNamesTheUser()
    ensures ClassifyCorrected("instagram.com/natgeo") == Success(Username("natgeo"))
  {
    assert "instagram.com" + "/" + "natgeo" == "instagram.com/natgeo";
    NatGeoIsBareProfile("instagram.com", "natgeo");
    CorrectedBareProfileNamesTheUser("instagram.com", "natgeo");
  }

  lemma NatGeoIsBareProfile(host: string, name: string)
    requires host == "instagram.com" && name == "natgeo"
    ensures IsBareProfile(host, name)
  {
    assert OccursAt(host, ServiceDomain, 0);
    assert IsPlainPath("/" + name);
  }
}
