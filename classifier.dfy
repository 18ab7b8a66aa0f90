/**
 * `parse_instagram_input`: turns what a user typed (a handle such as "@Name",
 * or a profile, story or highlight URL) into a tagged reference, or raises
 * ValueError for a URL that lacks the segment it needs.
 */
module InputClassifier {
  import opened Wrappers
  import opened Errors
  import opened PyText
  import opened Url

  /** The `("username", v)` and `("highlight", v)` tuples the classifier returns. */
  datatype InputRef = Username(name: string) | Highlight(id: string)

  /** Input that contains this text is taken for a URL (a case-sensitive test). */
  const ServiceDomain := "instagram.com"

  /** `[p for p in path.split("/") if p]`. */
  function PathParts(path: string): (parts: seq<string>)
    ensures forall i :: 0 <= i < |parts| ==> IsSegment(parts[i])
  {
    var split := Split(path, '/');
    var parts := NonEmpty(split);
    assert forall i :: 0 <= i < |parts| ==> parts[i] != [] && parts[i] in split;
    parts
  }

  /**
   * The URL branch: a "highlights" segment wins over a "stories" segment, the
   * first occurrence of either is used and the segment after it is the value;
   * otherwise the first segment is the username.
   */
  function ClassifyPath(parts: seq<string>): (r: Result<InputRef, Exception>)
    ensures r.Failure? ==> r.error.ValueError?
    ensures r.Success? && r.value.Highlight? ==> r.value.id in parts
    ensures r.Success? && r.value.Username? ==> r.value.name in parts
    ensures "highlights" in parts ==> r.Success? ==> r.value.Highlight?
    ensures r.Success? && r.value.Highlight? ==> "highlights" in parts
    ensures "highlights" in parts && IndexOf(parts, "highlights") < |parts| - 1 ==>
      r == Success(Highlight(parts[IndexOf(parts, "highlights") + 1]))
    ensures "highlights" !in parts && "stories" in parts && IndexOf(parts, "stories") < |parts| - 1 ==>
      r == Success(Username(parts[IndexOf(parts, "stories") + 1]))
    ensures "highlights" !in parts && "stories" !in parts && parts != [] ==> r == Success(Username(parts[0]))
  {
    if "highlights" in parts then
      var idx := IndexOf(parts, "highlights");
      if |parts| > idx + 1 then Success(Highlight(parts[idx + 1]))
      else Failure(ValueError("Invalid highlight URL"))
    else if "stories" in parts then
      var idx := IndexOf(parts, "stories");
      if |parts| > idx + 1 then Success(Username(parts[idx + 1]))
      else Failure(ValueError("Invalid stories URL"))
    else if |parts| > 0 then Success(Username(parts[0]))
    else Failure(ValueError("Could not parse Instagram URL"))
  }

  /**
   * `s.lstrip("@").lower()`: the handle after its leading run of '@',
   * lower-cased.
   */
  function Handle(s: string): (name: string)
    ensures name == [] || name[0] != '@'
    ensures forall i :: 0 <= i < |name| ==> !IsUpper(name[i])
    ensures exists k :: 0 <= k <= |s| && name == Lower(s[k..]) && forall i :: 0 <= i < k ==> s[i] == '@'
  {
    var k :| 0 <= k <= |s| && LStripAt(s) == s[k..] && forall i :: 0 <= i < k ==> s[i] == '@';
    Lower(LStripAt(s))
  }

  /** `parse_instagram_input(user_input)`. */
  function Classify(userInput: string): (r: Result<InputRef, Exception>)
    ensures r.Failure? ==> r.error.ValueError? && Contains(Strip(userInput), ServiceDomain)
    ensures !Contains(Strip(userInput), ServiceDomain) ==> r == Success(Username(Handle(Strip(userInput))))
  {
    var s := Strip(userInput);
    if Contains(s, ServiceDomain) then
      match UrlParse(s)
      case Failure(e) => Failure(e)
      case Success(url) => ClassifyPath(PathParts(url.path))
    else
      Success(Username(Handle(s)))
  }

  /** `highlights/<x>` yields exactly `("highlight", x)` when it is the first "highlights" segment. */
  lemma HighlightSegmentWins(prefix: seq<string>, x: string, rest: seq<string>)
    requires "highlights" !in prefix
    ensures ClassifyPath(prefix + ["highlights", x] + rest) == Success(Highlight(x))
  {
    IndexOfAfterPrefix(prefix, "highlights", [x] + rest);
    assert prefix + ["highlights", x] + rest == prefix + ["highlights"] + ([x] + rest);
  }

  /**
   * `stories/<x>` yields `("username", x)`, with `x` as written (not
   * lower-cased), when neither "highlights" nor an earlier "stories" occurs.
   */
  lemma StoriesSegmentNamesUser(prefix: seq<string>, x: string, rest: seq<string>)
    requires "stories" !in prefix
    requires "highlights" !in prefix + ["stories", x] + rest
    ensures ClassifyPath(prefix + ["stories", x] + rest) == Success(Username(x))
  {
    IndexOfAfterPrefix(prefix, "stories", [x] + rest);
    assert prefix + ["stories", x] + rest == prefix + ["stories"] + ([x] + rest);
  }

  /**
   * The URL branch raises exactly when there are no segments, or when the
   * first "highlights" (or, without one, the first "stories") is the last segment.
   */
  lemma {:induction false} ClassifyPathFails(parts: seq<string>)
    ensures ClassifyPath(parts).Failure? <==>
      || parts == []
      || ("highlights" in parts && IndexOf(parts, "highlights") == |parts| - 1)
      || ("highlights" !in parts && "stories" in parts && IndexOf(parts, "stories") == |parts| - 1)
  {
  }

  /** A run of '@' characters. */
  predicate AllAt(ats: string) {
    forall i :: 0 <= i < |ats| ==> ats[i] == '@'
  }

  /**
   * A handle typed after any number of '@' and without the domain names the
   * user, lower-cased and without the '@'s.
   */
  lemma HandleIsLowered(ats: string, name: string)
    requires AllAt(ats)
    requires name != [] && name[0] != '@' && !IsSpace(name[0]) && !IsSpace(name[|name| - 1])
    requires !Contains(ats + name, ServiceDomain)
    ensures Classify(ats + name) == Success(Username(Lower(name)))
  {
    AtHandle(ats, name);
    HandleBranch(ats + name);
  }

  lemma AtHandle(ats: string, name: string)
    requires AllAt(ats)
    requires name != [] && name[0] != '@' && !IsSpace(name[0]) && !IsSpace(name[|name| - 1])
    ensures Strip(ats + name) == ats + name
    ensures LStripAt(ats + name) == name
  {
    HandleUnstripped(ats, name);
    LStripAtRun(ats, name);
  }

  lemma HandleUnstripped(ats: string, name: string)
    requires AllAt(ats)
    requires name != [] && !IsSpace(name[0]) && !IsSpace(name[|name| - 1])
    ensures Strip(ats + name) == ats + name
  {
    var s := ats + name;
    assert s[|s| - 1] == name[|name| - 1];
    if ats != [] {
      assert s[0] == '@';
    } else {
      assert s[0] == name[0];
    }
    StripUnchanged(s);
  }

  /** Input without the domain takes the handle branch. */
  lemma HandleBranch(s: string)
    requires Strip(s) == s && !Contains(s, ServiceDomain)
    ensures Classify(s) == Success(Username(Handle(s)))
  {
  }

  /** "@Foo" and "@@Foo" both name the user "foo". */
  lemma AtFooNamesFoo()
    ensures Classify("@Foo") == Success(Username("foo"))
    ensures Classify("@@Foo") == Success(Username("foo"))
  {
    FooFacts("Foo", "@", "@@");
    HandleIsLowered("@", "Foo");
    HandleIsLowered("@@", "Foo");
  }

  lemma FooFacts(name: string, one: string, two: string)
    requires name == "Foo" && one == "@" && two == "@@"
    ensures Lower(name) == "foo" && one + name == "@Foo" && two + name == "@@Foo"
    ensures AllAt(one) && AllAt(two)
    ensures name != [] && name[0] != '@' && !IsSpace(name[0]) && !IsSpace(name[|name| - 1])
    ensures !Contains(one + name, ServiceDomain) && !Contains(two + name, ServiceDomain)
  {
    assert Lower(name)[0] == 'f';
    assert Lower(name) == "foo";
    assert !Contains(one + name, ServiceDomain) by { ShortTextLacksDomain(one + name); }
    assert !Contains(two + name, ServiceDomain) by { ShortTextLacksDomain(two + name); }
  }

  /** Text shorter than the service domain cannot contain it. */
  lemma ShortTextLacksDomain(s: string)
    requires |s| < |ServiceDomain|
    ensures !Contains(s, ServiceDomain)
  {
    forall i: nat ensures !OccursAt(s, ServiceDomain, i) { }
  }

  /** The URL that names a highlight on any host that contains the service domain. */
  lemma HighlightUrl(host: string, id: string)
    requires IsPlainHost(host) && Contains(host, ServiceDomain)
    requires IsSegment(id) && IsPlainPath("/" + id) && !IsSpace(id[|id| - 1])
    ensures Classify("https://" + host + ("/highlights/" + id)) == Success(Highlight(id))
  {
    HighlightPathFacts(id);
    HttpsUrlClassifiesPath(host, "/highlights/" + id, "highlights", id);
  }

  lemma HighlightPathFacts(id: string)
    requires IsSegment(id)
    ensures "/highlights/" + id == "/" + "highlights" + "/" + id
    ensures IsPlainPath("/highlights")
    ensures ClassifyPath(["highlights", id]) == Success(Highlight(id))
  {
    HighlightSegmentWins([], id, []);
    assert [] + ["highlights", id] + [] == ["highlights", id];
  }

  /** A profile URL names the user exactly as its only path segment spells it. */
  lemma ProfileUrl(host: string, name: string)
    requires IsPlainHost(host) && Contains(host, ServiceDomain)
    requires IsSegment(name) && IsPlainPath("/" + name) && !IsSpace(name[|name| - 1])
    requires name != "highlights" && name != "stories"
    ensures Classify("https://" + host + ("/" + name)) == Success(Username(name))
  {
    ProfilePathFacts(name);
    assert ("/" + name)[|name|] == name[|name| - 1];
    HttpsUrlUnstripped(host, "/" + name);
    ContainsInMiddle("https://", host, "/" + name, ServiceDomain);
    HttpsUrlBranch(host, "/" + name);
  }

  lemma ProfilePathFacts(name: string)
    requires IsSegment(name) && name != "highlights" && name != "stories"
    ensures PathParts("/" + name) == [name]
    ensures ClassifyPath([name]) == Success(Username(name))
  {
    assert JoinPath([name]) == "/" + name;
    SegmentsOfJoinPath([name]);
  }

  /** An https URL whose path does not end in whitespace is unchanged by `strip()`. */
  lemma HttpsUrlUnstripped(host: string, path: string)
    requires path != [] && !IsSpace(path[|path| - 1])
    ensures Strip("https://" + host + path) == "https://" + host + path
  {
    var url := "https://" + host + path;
    assert url[0] == 'h';
    assert url[|url| - 1] == path[|path| - 1];
    StripUnchanged(url);
  }

  /** A stories URL names the user exactly as the URL spells it. */
  lemma StoriesUrl(host: string, name: string)
    requires IsPlainHost(host) && Contains(host, ServiceDomain)
    requires IsSegment(name) && IsPlainPath("/" + name) && !IsSpace(name[|name| - 1])
    requires name != "highlights"
    ensures Classify("https://" + host + ("/stories/" + name)) == Success(Username(name))
  {
    StoriesPathFacts(name);
    HttpsUrlClassifiesPath(host, "/stories/" + name, "stories", name);
  }

  lemma StoriesPathFacts(name: string)
    requires IsSegment(name) && name != "highlights"
    ensures "/stories/" + name == "/" + "stories" + "/" + name
    ensures IsPlainPath("/stories")
    ensures ClassifyPath(["stories", name]) == Success(Username(name))
  {
    StoriesSegmentNamesUser([], name, []);
    assert [] + ["stories", name] + [] == ["stories", name];
  }

  /** An https URL with two path segments on a host containing the service domain is classified by those segments. */
  lemma {:induction false} HttpsUrlClassifiesPath(host: string, path: string, first: string, second: string)
    requires IsPlainHost(host) && Contains(host, ServiceDomain)
    requires IsSegment(first) && IsSegment(second) && !IsSpace(second[|second| - 1])
    requires IsPlainPath("/" + first) && IsPlainPath("/" + second)
    requires path == "/" + first + "/" + second
    ensures Classify("https://" + host + path) == ClassifyPath([first, second])
  {
    var url := "https://" + host + path;
    PlainPathOfTwo(first, second);
    assert Strip(url) == url by {
      assert url[|url| - 1] == second[|second| - 1];
      StripUnchanged(url);
    }
    assert Contains(url, ServiceDomain) by {
      ContainsInMiddle("https://", host, path, ServiceDomain);
    }
    PartsOfTwo(path, first, second);
    HttpsUrlBranch(host, path);
  }

  lemma PartsOfTwo(path: string, first: string, second: string)
    requires IsSegment(first) && IsSegment(second)
    requires path == "/" + first + "/" + second
    ensures PathParts(path) == [first, second]
  {
    JoinTwo(first, second);
    assert forall i :: 0 <= i < 2 ==> IsSegment([first, second][i]);
    SegmentsOfJoinPath([first, second]);
  }

  /** Input holding the service domain is a URL: it is parsed and classified by its path. */
  lemma HttpsUrlBranch(host: string, path: string)
    requires IsPlainHost(host) && IsPlainPath(path)
    requires Strip("https://" + host + path) == "https://" + host + path
    requires Contains("https://" + host + path, ServiceDomain)
    ensures Classify("https://" + host + path) == ClassifyPath(PathParts(path))
  {
    ParseHttpsUrl(host, path);
    UrlBranch("https://" + host + path, UrlParts("https", host, path, "", "", ""));
  }

  lemma PlainPathOfTwo(first: string, second: string)
    requires IsPlainPath("/" + first) && IsPlainPath("/" + second)
    ensures IsPlainPath("/" + first + "/" + second)
  {
    var path := "/" + first + "/" + second;
    forall i | 0 <= i < |path|
      ensures !IsUnsafe(path[i]) && path[i] != '?' && path[i] != '#' && path[i] != ';'
    {
      if i <= |first| {
        assert path[i] == ("/" + first)[i];
      } else {
        assert path[i] == ("/" + second)[i - |first| - 1];
      }
    }
  }

  lemma UrlBranch(s: string, url: UrlParts)
    requires Strip(s) == s && Contains(s, ServiceDomain) && UrlParse(s) == Success(url)
    ensures Classify(s) == ClassifyPath(PathParts(url.path))
  {
  }
}
