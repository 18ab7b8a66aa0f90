/**
 * The four username-to-id lookups that `get_user_id` tries before the mobile
 * API, and that mobile lookup itself.  The network call of each strategy is
 * replaced by its reply; what is modelled is what each strategy does with it.
 * Strategies 1 to 4 call the HTTP session directly, so a transport failure
 * reaches the resolver as the library's own exception; the mobile lookup goes
 * through `_request`.
 */
module Strategies {
  import opened Wrappers
  import opened Errors
  import opened PyText
  import opened PyJson
  import opened ApiRequest

  /** What a strategy does: returns an id or `None`, or raises. */
  datatype Outcome = Returned(id: Option<string>) | Raised(error: Exception)

  // ---------------------------------------------------------------------------
  // Strategy 1: scraping the public profile page

  /**
   * The four page patterns, in the order they are tried.  Their regular
   * expressions are opaque here; the third one embeds the username.
   */
  datatype Pattern = ProfilePageMarker | UserIdField | IdBeforeUsername(username: string) | DataIdAttribute

  function PagePatterns(username: string): (ps: seq<Pattern>)
    ensures |ps| == 4 && ps[2] == IdBeforeUsername(username)
    ensures forall k :: 0 <= k < 4 && k != 2 ==> !ps[k].IdBeforeUsername?
  {
    [ProfilePageMarker, UserIdField, IdBeforeUsername(username), DataIdAttribute]
  }

  datatype PageReply = Page(status: int, text: string) | PageUnreachable(kind: TransportFault)

  /** The captured id of the first pattern that matches `text`, trying `patterns` in order. */
  function FirstMatch(patterns: seq<Pattern>, text: string, search: (Pattern, string) -> Option<string>): (r: Option<string>)
    ensures r.Some? ==> exists k :: 0 <= k < |patterns| && search(patterns[k], text) == r
    ensures r.None? ==> forall k :: 0 <= k < |patterns| ==> search(patterns[k], text).None?
  {
    if patterns == [] then None
    else if search(patterns[0], text).Some? then search(patterns[0], text)
    else FirstMatch(patterns[1..], text, search)
  }

  /** The first matching pattern in order decides; a later pattern counts only when all earlier ones miss. */
  lemma {:induction false} FirstMatchIsEarliest(patterns: seq<Pattern>, text: string, search: (Pattern, string) -> Option<string>)
    ensures FirstMatch(patterns, text, search).Some? <==>
      exists k :: 0 <= k < |patterns| && search(patterns[k], text).Some?
    ensures forall k :: (0 <= k < |patterns| && search(patterns[k], text).Some? &&
                         (forall j :: 0 <= j < k ==> search(patterns[j], text).None?)) ==>
      FirstMatch(patterns, text, search) == search(patterns[k], text)
  {
    if patterns != [] {
      FirstMatchIsEarliest(patterns[1..], text, search);
      if search(patterns[0], text).None? {
        forall k | 1 <= k < |patterns| ensures patterns[k] == patterns[1..][k - 1] { }
      }
    }
  }

  /** `_get_user_id_from_page`: only a 200 page is searched; any other status gives `None`. */
  function ScrapeProfilePage(reply: PageReply, username: string, search: (Pattern, string) -> Option<string>): (o: Outcome)
    ensures reply.PageUnreachable? <==> o.Raised?
    ensures reply.Page? && reply.status != 200 ==> o == Returned(None)
    ensures reply.Page? && reply.status == 200 ==>
      o == Returned(FirstMatch(PagePatterns(username), reply.text, search))
    ensures reply.Page? && reply.status == 200 ==>
      (o.id.Some? <==> exists k :: 0 <= k < 4 && search(PagePatterns(username)[k], reply.text).Some?)
    ensures o.Returned? && o.id.Some? ==>
      exists k :: 0 <= k < 4 && search(PagePatterns(username)[k], reply.text) == o.id &&
        forall j :: 0 <= j < k ==> search(PagePatterns(username)[j], reply.text).None?
  {
    match reply
    case PageUnreachable(kind) => Raised(TransportError(kind))
    case Page(status, text) =>
      if status == 200 then
        FirstMatchIsEarliest(PagePatterns(username), text, search);
        Returned(FirstMatch(PagePatterns(username), text, search))
      else Returned(None)
  }

  // ---------------------------------------------------------------------------
  // Strategies 2 and 4: scanning a user list for the username

  /** One user of a search result: its "username" and the id-bearing key ("id" or "pk"). */
  datatype SearchUser = SearchUser(username: Value<string>, ident: Value<Scalar>)

  /** The user object of an entry: `user_data.get("user", {})`, or `None` for a null user. */
  function UserOf(entry: Value<SearchUser>): Option<SearchUser>
  {
    match entry
    case Missing => Some(SearchUser(Missing, Missing))
    case Null => None
    case Given(u) => Some(u)
  }

  /** An entry that names this user (case-insensitively) and carries an id. */
  predicate NamesUser(entry: Value<SearchUser>, username: string, id: string)
  {
    UserOf(entry).Some? && Get(UserOf(entry).value.username, "").Some? &&
    Lower(Get(UserOf(entry).value.username, "").value) == Lower(username) &&
    StrAt(UserOf(entry).value.ident) == Success(id)
  }

  /** A well-formed entry whose username differs from this one after lower-casing. */
  predicate NamesOther(entry: Value<SearchUser>, username: string)
  {
    UserOf(entry).Some? && Get(UserOf(entry).value.username, "").Some? &&
    Lower(Get(UserOf(entry).value.username, "").value) != Lower(username)
  }

  /**
   * What one list entry (its "user" key) does to the scan: `None` to go on,
   * or the outcome that ends it.  `user.get("username", "").lower()` on a null
   * username, or `.get` on a null user, raises AttributeError; a match without
   * the id key raises KeyError.
   */
  function EntryVerdict(entry: Value<SearchUser>, username: string): (v: Option<Outcome>)
    ensures v.None? <==> NamesOther(entry, username)
    ensures forall id :: NamesUser(entry, username, id) ==> v == Some(Returned(Some(id)))
    ensures v.Some? && v.value.Returned? ==> v.value.id.Some? && NamesUser(entry, username, v.value.id.value)
    ensures v.Some? && v.value.Raised? ==> v.value.error in {ShapeError(AttributeError), ShapeError(KeyError)}
    ensures UserOf(entry).None? || Get(UserOf(entry).value.username, "").None? ==>
      v == Some(Raised(ShapeError(AttributeError)))
    ensures UserOf(entry).Some? && Get(UserOf(entry).value.username, "").Some? &&
            Lower(Get(UserOf(entry).value.username, "").value) == Lower(username) &&
            UserOf(entry).value.ident.Missing? ==>
      v == Some(Raised(ShapeError(KeyError)))
  {
    match UserOf(entry)
    case None => Some(Raised(ShapeError(AttributeError)))
    case Some(u) =>
      match Get(u.username, "")
      case None => Some(Raised(ShapeError(AttributeError)))
      case Some(name) =>
        if Lower(name) != Lower(username) then None
        else match StrAt(u.ident)
          case Success(id) => Some(Returned(Some(id)))
          case Failure(e) => Some(Raised(e))
  }

  /**
   * `o` is what the scan of `entries` gives: `None` when every entry lets it
   * go on, and otherwise the verdict of the first entry that does not.
   */
  predicate FirstDecisive(entries: seq<Value<SearchUser>>, username: string, o: Outcome)
  {
    (o == Returned(None) <==> forall j :: 0 <= j < |entries| ==> EntryVerdict(entries[j], username).None?) &&
    (o != Returned(None) ==>
      exists k :: 0 <= k < |entries| && EntryVerdict(entries[k], username) == Some(o) &&
                  forall j :: 0 <= j < k ==> EntryVerdict(entries[j], username).None?)
  }

  /**
   * The loop of `_get_user_id_graphql` and `_get_user_id_search`: the first
   * entry whose verdict is not "go on" decides; when there is none the result
   * is `None`.
   */
  method ScanUsers(entries: seq<Value<SearchUser>>, username: string) returns (o: Outcome)
    ensures FirstDecisive(entries, username, o)
  {
    var i := 0;
    while i < |entries|
      invariant 0 <= i <= |entries|
      invariant forall j :: 0 <= j < i ==> EntryVerdict(entries[j], username).None?
    {
      var verdict := EntryVerdict(entries[i], username);
      if verdict.Some? {
        return verdict.value;
      }
      i := i + 1;
    }
    return Returned(None);
  }

  /** A found id comes from an entry that names the user, and every earlier entry was well-formed and named someone else. */
  lemma ScanFindsNamedUser(entries: seq<Value<SearchUser>>, username: string, k: nat, id: string)
    requires k < |entries| && EntryVerdict(entries[k], username) == Some(Returned(Some(id)))
    requires forall j :: 0 <= j < k ==> EntryVerdict(entries[j], username).None?
    ensures NamesUser(entries[k], username, id)
    ensures forall j :: 0 <= j < k ==> NamesOther(entries[j], username)
  {
  }

  /**
   * Conversely, when entry `k` names the user and every entry before it names
   * someone else, the scan returns entry `k`'s id.
   */
  lemma FirstNamedUserIsFound(entries: seq<Value<SearchUser>>, username: string, k: nat, id: string, o: Outcome)
    requires k < |entries| && NamesUser(entries[k], username, id)
    requires forall j :: 0 <= j < k ==> NamesOther(entries[j], username)
    requires FirstDecisive(entries, username, o)
    ensures o == Returned(Some(id))
  {
    assert EntryVerdict(entries[k], username) == Some(Returned(Some(id)));
    var m :| 0 <= m < |entries| && EntryVerdict(entries[m], username) == Some(o) &&
             forall j :: 0 <= j < m ==> EntryVerdict(entries[j], username).None?;
    assert m == k;
  }

  /** The reply to the GraphQL top-search POST: data.xdt_api__v1__fbsearch__topsearch_connection.users. */
  datatype GraphQLReply =
    | GraphQLResponse(status: int, data: Value<GraphQLData>)
    | GraphQLNotJson(status: int)
    | GraphQLUnreachable(kind: TransportFault)
  datatype GraphQLData = GraphQLData(connection: Value<TopSearchConnection>)
  datatype TopSearchConnection = TopSearchConnection(users: Value<seq<Value<SearchUser>>>)

  /** The user list under `result.get("data", {}).get(<connection>, {}).get("users", [])`. */
  function GraphQLUsers(data: Value<GraphQLData>): (r: Result<seq<Value<SearchUser>>, Exception>)
    ensures data.Missing? ==> r == Success([])
    ensures data.Null? ==> r == Failure(ShapeError(AttributeError))
    ensures data.Given? && data.v.connection.Missing? ==> r == Success([])
    ensures data.Given? && data.v.connection.Null? ==> r == Failure(ShapeError(AttributeError))
    ensures data.Given? && data.v.connection.Given? ==> r == ListOf(data.v.connection.v.users)
    ensures r.Failure? ==> r.error in {ShapeError(AttributeError), ShapeError(TypeError)}
  {
    match data
    case Missing => Success([])
    case Null => Failure(ShapeError(AttributeError))
    case Given(d) =>
      match d.connection
      case Missing => Success([])
      case Null => Failure(ShapeError(AttributeError))
      case Given(c) => ListOf(c.users)
  }

  /** `_get_user_id_graphql`: a 200 reply is scanned for the user; any other status gives `None`. */
  method LookupGraphQL(reply: GraphQLReply, username: string) returns (o: Outcome)
    ensures reply.GraphQLResponse? && reply.status != 200 ==> o == Returned(None)
    ensures reply.GraphQLNotJson? ==>
      o == if reply.status == 200 then Raised(ShapeError(JsonDecodeError)) else Returned(None)
    ensures reply.GraphQLUnreachable? ==> o == Raised(TransportError(reply.kind))
    ensures reply.GraphQLResponse? && reply.status == 200 && GraphQLUsers(reply.data).Failure? ==>
      o == Raised(GraphQLUsers(reply.data).error)
    ensures reply.GraphQLResponse? && reply.status == 200 && GraphQLUsers(reply.data).Success? ==>
      FirstDecisive(GraphQLUsers(reply.data).value, username, o)
    ensures o.Returned? && o.id.Some? ==>
      reply.GraphQLResponse? && GraphQLUsers(reply.data).Success? &&
      exists k :: 0 <= k < |GraphQLUsers(reply.data).value| &&
        NamesUser(GraphQLUsers(reply.data).value[k], username, o.id.value) &&
        forall j :: 0 <= j < k ==> NamesOther(GraphQLUsers(reply.data).value[j], username)
  {
    match reply {
      case GraphQLUnreachable(kind) => o := Raised(TransportError(kind));
      case GraphQLNotJson(status) =>
        o := if status == 200 then Raised(ShapeError(JsonDecodeError)) else Returned(None);
      case GraphQLResponse(status, data) =>
        if status != 200 {
          o := Returned(None);
        } else {
          match GraphQLUsers(data) {
            case Failure(e) => o := Raised(e);
            case Success(users) =>
              o := ScanUsers(users, username);
              if o.Returned? && o.id.Some? {
                var k :| 0 <= k < |users| && EntryVerdict(users[k], username) == Some(o) &&
                  forall j :: 0 <= j < k ==> EntryVerdict(users[j], username).None?;
                ScanFindsNamedUser(users, username, k, o.id.value);
              }
          }
        }
    }
  }

  /** The reply to the legacy top-search GET: a "users" list at the top level. */
  datatype TopSearchReply =
    | TopSearchResponse(status: int, users: Value<seq<Value<SearchUser>>>)
    | TopSearchNotJson(status: int)
    | TopSearchUnreachable(kind: TransportFault)

  /** `_get_user_id_search`: a 200 reply is scanned for the user; any other status gives `None`. */
  method LookupTopSearch(reply: TopSearchReply, username: string) returns (o: Outcome)
    ensures reply.TopSearchResponse? && reply.status != 200 ==> o == Returned(None)
    ensures reply.TopSearchNotJson? ==>
      o == if reply.status == 200 then Raised(ShapeError(JsonDecodeError)) else Returned(None)
    ensures reply.TopSearchUnreachable? ==> o == Raised(TransportError(reply.kind))
    ensures reply.TopSearchResponse? && reply.status == 200 && reply.users.Null? ==>
      o == Raised(ShapeError(TypeError))
    ensures reply.TopSearchResponse? && reply.status == 200 && reply.users.Missing? ==> o == Returned(None)
    ensures reply.TopSearchResponse? && reply.status == 200 && reply.users.Given? ==>
      FirstDecisive(reply.users.v, username, o)
    ensures o.Returned? && o.id.Some? ==>
      reply.TopSearchResponse? && reply.users.Given? &&
      exists k :: 0 <= k < |reply.users.v| && NamesUser(reply.users.v[k], username, o.id.value) &&
        forall j :: 0 <= j < k ==> NamesOther(reply.users.v[j], username)
  {
    match reply {
      case TopSearchUnreachable(kind) => o := Raised(TransportError(kind));
      case TopSearchNotJson(status) =>
        o := if status == 200 then Raised(ShapeError(JsonDecodeError)) else Returned(None);
      case TopSearchResponse(status, users) =>
        if status != 200 {
          o := Returned(None);
        } else {
          match ListOf(users) {
            case Failure(e) => o := Raised(e);
            case Success(list) =>
              o := ScanUsers(list, username);
              if o.Returned? && o.id.Some? {
                var k :| 0 <= k < |list| && EntryVerdict(list[k], username) == Some(o) &&
                  forall j :: 0 <= j < k ==> EntryVerdict(list[j], username).None?;
                ScanFindsNamedUser(list, username, k, o.id.value);
              }
          }
        }
    }
  }

  // ---------------------------------------------------------------------------
  // Strategies 3 and 5: structured profile lookups

  /**
   * A user object: its id-bearing key ("id" or "pk") and whether it has any
   * other key.  `if user:` is false only for an empty object.
   */
  datatype UserObject = UserObject(ident: Value<Scalar>, otherKeys: bool)

  predicate Truthy(u: UserObject) { !u.ident.Missing? || u.otherKeys }

  datatype ProfileReply =
    | ProfileResponse(status: int, data: Value<ProfileData>)
    | ProfileNotJson(status: int)
    | ProfileUnreachable(kind: TransportFault)
  datatype ProfileData = ProfileData(user: Value<UserObject>)

  /** `_get_user_id_web_profile`: `data.get("data", {}).get("user")`, then `str(user["id"])` when truthy. */
  function WebProfileLookup(reply: ProfileReply): (o: Outcome)
    ensures (reply.ProfileResponse? || reply.ProfileNotJson?) && reply.status != 200 ==> o == Returned(None)
    ensures reply.ProfileUnreachable? ==> o == Raised(TransportError(reply.kind))
    ensures reply.ProfileNotJson? && reply.status == 200 ==> o == Raised(ShapeError(JsonDecodeError))
    ensures reply.ProfileResponse? && reply.status == 200 && reply.data.Null? ==>
      o == Raised(ShapeError(AttributeError))
    ensures reply.ProfileResponse? && reply.status == 200 && reply.data.Given? &&
            reply.data.v.user.Given? && Truthy(reply.data.v.user.v) ==>
      o == (match StrAt(reply.data.v.user.v.ident)
            case Success(id) => Returned(Some(id))
            case Failure(e) => Raised(e))
    ensures reply.ProfileResponse? && reply.status == 200 && !reply.data.Null? &&
            !(reply.data.Given? && reply.data.v.user.Given? && Truthy(reply.data.v.user.v)) ==>
      o == Returned(None)
    ensures o.Returned? && o.id.Some? ==>
      reply.ProfileResponse? && reply.status == 200 && reply.data.Given? &&
      reply.data.v.user.Given? && StrAt(reply.data.v.user.v.ident) == Success(o.id.value)
  {
    match reply
    case ProfileUnreachable(kind) => Raised(TransportError(kind))
    case ProfileNotJson(status) =>
      if status == 200 then Raised(ShapeError(JsonDecodeError)) else Returned(None)
    case ProfileResponse(status, data) =>
      if status != 200 then Returned(None)
      else match data
        case Missing => Returned(None)
        case Null => Raised(ShapeError(AttributeError))
        case Given(d) =>
          match d.user
          case Given(u) =>
            if Truthy(u) then
              match StrAt(u.ident)
              case Success(id) => Returned(Some(id))
              case Failure(e) => Raised(e)
            else Returned(None)
          case _ => Returned(None)
  }

  /** The mobile `usernameinfo` payload: its "user" object. */
  datatype MobileReply = MobileReply(user: Value<UserObject>)

  /**
   * Strategy 5's body: `_request(...)`, then `str(result["user"]["pk"])` when
   * `result.get("user")` is truthy.  `_request`'s InstagramError is raised as
   * is; a truthy user without "pk" raises KeyError.
   */
  function MobileLookup(reply: Transport<MobileReply>): (o: Outcome)
    ensures Request(reply).Failure? ==> o == Raised(Request(reply).error)
    ensures o.Raised? && !o.error.InstagramError? ==> o.error == ShapeError(KeyError)
    ensures Request(reply).Success? && Request(reply).value.user.Given? && Truthy(Request(reply).value.user.v) ==>
      o == (match StrAt(Request(reply).value.user.v.ident)
            case Success(id) => Returned(Some(id))
            case Failure(e) => Raised(e))
    ensures Request(reply).Success? &&
            !(Request(reply).value.user.Given? && Truthy(Request(reply).value.user.v)) ==>
      o == Returned(None)
    ensures o.Returned? && o.id.Some? ==>
      Request(reply).Success? && Request(reply).value.user.Given? &&
      StrAt(Request(reply).value.user.v.ident) == Success(o.id.value)
  {
    match Request(reply)
    case Failure(e) => Raised(e)
    case Success(payload) =>
      match payload.user
      case Given(u) =>
        if Truthy(u) then
          match StrAt(u.ident)
          case Success(id) => Returned(Some(id))
          case Failure(e) => Raised(e)
        else Returned(None)
      case _ => Returned(None)
  }
}
