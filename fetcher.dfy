/**
 * `get_user_stories` and `get_highlight_stories`: one request for a reel,
 * then every item of the reel through `_extract_story`, keeping the stories
 * that came out, in the order of the items.  The highlight fetcher also
 * builds a summary of the highlight, and raises a 404 when the response has
 * no reel under the key "highlight:<id>".
 */
module ReelFetcher {
  import opened Wrappers
  import opened Errors
  import opened PyJson
  import opened ApiRequest
  import opened StoryExtractor

  /** An element of a reel's item list; `None` for one that is not an object. */
  type Item = Option<RawItem>

  /** The stories extracted from `items`, in order, skipping the items that yield none. */
  function Collect(items: seq<Item>): (stories: seq<Story>)
    ensures |stories| <= |items|
  {
    if items == [] then []
    else
      var story := ExtractStory(items[|items| - 1]);
      Collect(items[..|items| - 1]) + (if story.Some? then [story.value] else [])
  }

  /** Collecting a concatenation collects each part. */
  lemma {:induction false} CollectAppend(a: seq<Item>, b: seq<Item>)
    ensures Collect(a + b) == Collect(a) + Collect(b)
    decreases |b|
  {
    if b == [] {
      assert a + b == a;
    } else {
      var b' := b[..|b| - 1];
      assert (a + b)[..|a + b| - 1] == a + b';
      CollectAppend(a, b');
    }
  }

  /** Collect keeps exactly the stories of the items that yield one, and in order. */
  lemma {:induction false} CollectKeepsExtractedInOrder(items: seq<Item>)
    ensures |Collect(items)| <= |items|
    ensures (forall i :: 0 <= i < |items| ==> ExtractStory(items[i]).Some?) ==>
      |Collect(items)| == |items| &&
      forall i :: 0 <= i < |items| ==> Collect(items)[i] == ExtractStory(items[i]).value
    ensures (forall i :: 0 <= i < |items| ==> ExtractStory(items[i]).None?) ==> Collect(items) == []
    ensures forall s :: s in Collect(items) ==> exists i :: 0 <= i < |items| && ExtractStory(items[i]) == Some(s)
  {
    if AllYield(items) {
      CollectKeepsAll(items);
    }
    CollectDropsAll(items);
    CollectKeepsOnlyExtracted(items);
  }

  /** Every item yields a story. */
  predicate AllYield(items: seq<Item>) {
    forall i :: 0 <= i < |items| ==> ExtractStory(items[i]).Some?
  }

  /** When every item yields a story, Collect is the pointwise extraction. */
  lemma {:induction false} CollectKeepsAll(items: seq<Item>)
    requires AllYield(items)
    ensures |Collect(items)| == |items|
    ensures forall i :: 0 <= i < |items| ==> Collect(items)[i] == ExtractStory(items[i]).value
  {
    if items != [] {
      var n := |items| - 1;
      var init := items[..n];
      assert AllYield(init) by {
        assert forall i :: 0 <= i < n ==> init[i] == items[i];
      }
      CollectKeepsAll(init);
      var last := ExtractStory(items[n]).value;
      assert Collect(items) == Collect(init) + [last];
      forall i | 0 <= i < |items| ensures Collect(items)[i] == ExtractStory(items[i]).value {
        if i < n {
          assert Collect(items)[i] == Collect(init)[i];
          assert init[i] == items[i];
        }
      }
    }
  }

  /** When no item yields a story, Collect is empty. */
  lemma {:induction false} CollectDropsAll(items: seq<Item>)
    ensures (forall i :: 0 <= i < |items| ==> ExtractStory(items[i]).None?) ==> Collect(items) == []
  {
    if items != [] {
      var init := items[..|items| - 1];
      CollectDropsAll(init);
      assert forall i :: 0 <= i < |init| ==> init[i] == items[i];
    }
  }

  /** Every collected story is the extraction of some item. */
  lemma {:induction false} CollectKeepsOnlyExtracted(items: seq<Item>)
    ensures forall s :: s in Collect(items) ==> exists i :: 0 <= i < |items| && ExtractStory(items[i]) == Some(s)
  {
    if items != [] {
      var init := items[..|items| - 1];
      CollectKeepsOnlyExtracted(init);
      assert forall i :: 0 <= i < |init| ==> init[i] == items[i];
    }
  }

  /** The JSON of `feed/user/<id>/story/`: the reel is read with `result.get("reel") or {}`. */
  datatype StoryFeed = StoryFeed(reel: Value<UserReel>)
  datatype UserReel = UserReel(items: Value<seq<Item>>)

  /** The items of the user's reel; an absent or null reel has none, a null item list raises TypeError. */
  function FeedItems(feed: StoryFeed): (r: Result<seq<Item>, Exception>)
    ensures !feed.reel.Given? ==> r == Success([])
    ensures r.Failure? <==> feed.reel.Given? && feed.reel.v.items.Null?
    ensures r.Failure? ==> r.error == ShapeError(TypeError)
    ensures feed.reel.Given? && feed.reel.v.items.Given? ==> r == Success(feed.reel.v.items.v)
    ensures feed.reel.Given? && feed.reel.v.items.Missing? ==> r == Success([])
  {
    match feed.reel
    case Given(reel) => ListOf(reel.items)
    case _ => Success([])
  }

  /**
   * `get_user_stories(user_id)` given the reply to its request: the request's
   * error, the item list's error, or the stories collected from the items.
   */
  method GetUserStories(reply: Transport<StoryFeed>) returns (r: Result<seq<Story>, Exception>)
    ensures Request(reply).Failure? ==> r == Failure(Request(reply).error)
    ensures Request(reply).Success? && FeedItems(Request(reply).value).Failure? ==>
      r == Failure(ShapeError(TypeError))
    ensures Request(reply).Success? && FeedItems(Request(reply).value).Success? ==>
      r == Success(Collect(FeedItems(Request(reply).value).value))
  {
    var result := Request(reply);
    if result.Failure? {
      return Failure(result.error);
    }
    var items := FeedItems(result.value);
    if items.Failure? {
      return Failure(items.error);
    }
    var stories := CollectStories(items.value);
    return Success(stories);
  }

  /** The loop shared by both fetchers: extract every item and keep the stories. */
  method CollectStories(items: seq<Item>) returns (stories: seq<Story>)
    ensures stories == Collect(items)
  {
    stories := [];
    var i := 0;
    while i < |items|
      invariant 0 <= i <= |items|
      invariant stories == Collect(items[..i])
    {
      var story := ExtractStory(items[i]);
      if story.Some? {
        stories := stories + [story.value];
      }
      assert items[..i + 1][..i] == items[..i];
      i := i + 1;
    }
    assert items[..i] == items;
  }

  /** The JSON of `feed/reels_media/`: a map from reel keys to reels; `None` for a null reel. */
  datatype ReelsMedia = ReelsMedia(reels: Value<map<string, Option<HighlightReel>>>)

  datatype HighlightReel = HighlightReel(
    items: Value<seq<Item>>, title: Value<string>, coverMedia: Value<CoverMedia>, user: Value<RawUser>)
  datatype CoverMedia = CoverMedia(croppedImageVersion: Value<CroppedImage>)
  datatype CroppedImage = CroppedImage(url: Value<string>)

  /** The summary of a highlight; `None` stands for a null passed through. */
  datatype HighlightInfo = HighlightInfo(id: string, title: Option<string>, coverUrl: Option<string>, user: Owner)

  const HighlightNotFound := InstagramError("Highlight not found", 404)

  /** The key the reel is filed under in the response. */
  function HighlightKey(highlightId: string): (key: string)
    ensures |key| == 10 + |highlightId| && key[..10] == "highlight:" && key[10..] == highlightId
  {
    "highlight:" + highlightId
  }

  /** `reel.get("cover_media", {}).get("cropped_image_version", {}).get("url", "")`. */
  function CoverUrl(cover: Value<CoverMedia>): (r: Result<Option<string>, Exception>)
    ensures r.Failure? <==> cover.Null? || (cover.Given? && cover.v.croppedImageVersion.Null?)
    ensures r.Failure? ==> r.error == ShapeError(AttributeError)
    ensures (cover.Missing? || (cover.Given? && cover.v.croppedImageVersion.Missing?)) ==> r == Success(Some(""))
    ensures cover.Given? && cover.v.croppedImageVersion.Given? ==>
      var url := cover.v.croppedImageVersion.v.url;
      r == Success(if url.Given? then Some(url.v) else if url.Missing? then Some("") else None)
  {
    match cover
    case Missing => Success(Some(""))
    case Null => Failure(ShapeError(AttributeError))
    case Given(c) =>
      match c.croppedImageVersion
      case Missing => Success(Some(""))
      case Null => Failure(ShapeError(AttributeError))
      case Given(image) => Success(Get(image.url, ""))
  }

  /** The highlight summary built from its reel; a null cover or user raises AttributeError. */
  function Summary(highlightId: string, reel: HighlightReel): (r: Result<HighlightInfo, Exception>)
    ensures r.Failure? <==> CoverUrl(reel.coverMedia).Failure? || reel.user.Null?
    ensures r.Failure? ==> r.error == ShapeError(AttributeError)
    ensures r.Success? ==>
      && r.value.id == highlightId
      && r.value.title == Get(reel.title, "Highlight")
      && Success(r.value.coverUrl) == CoverUrl(reel.coverMedia)
      && Success(r.value.user) == OwnerSummary(reel.user)
  {
    match (CoverUrl(reel.coverMedia), OwnerSummary(reel.user))
    case (Success(cover), Success(owner)) =>
      Success(HighlightInfo(highlightId, Get(reel.title, "Highlight"), cover, owner))
    case (Failure(e), _) => Failure(e)
    case (_, Failure(e)) => Failure(e)
  }

  /** The reel filed under the highlight's key; 404 when there is none, TypeError when `reels` is null. */
  function FindReel(highlightId: string, media: ReelsMedia): (r: Result<HighlightReel, Exception>)
    ensures r == Failure(HighlightNotFound) <==>
      !media.reels.Null? && (media.reels.Missing? || HighlightKey(highlightId) !in media.reels.v)
    ensures media.reels.Null? ==> r == Failure(ShapeError(TypeError))
    ensures r.Success? ==> media.reels.Given? && media.reels.v[HighlightKey(highlightId)] == Some(r.value)
    ensures media.reels.Given? && HighlightKey(highlightId) in media.reels.v ==>
      r == match media.reels.v[HighlightKey(highlightId)]
           case Some(reel) => Success(reel)
           case None => Failure(ShapeError(AttributeError))
  {
    match media.reels
    case Missing => Failure(HighlightNotFound)
    case Null => Failure(ShapeError(TypeError))
    case Given(reels) =>
      var key := HighlightKey(highlightId);
      if key !in reels then Failure(HighlightNotFound)
      else if reels[key].None? then Failure(ShapeError(AttributeError))
      else Success(reels[key].value)
  }

  /**
   * `get_highlight_stories(highlight_id)` given the reply to its request: the
   * summary of the highlight and the stories collected from its items.
   */
  method GetHighlightStories(highlightId: string, reply: Transport<ReelsMedia>)
    returns (r: Result<(HighlightInfo, seq<Story>), Exception>)
    ensures Request(reply).Failure? ==> r == Failure(Request(reply).error)
    ensures Request(reply).Success? && FindReel(highlightId, Request(reply).value).Failure? ==>
      r == Failure(FindReel(highlightId, Request(reply).value).error)
    ensures Request(reply).Success? && FindReel(highlightId, Request(reply).value).Success? ==>
      var reel := FindReel(highlightId, Request(reply).value).value;
      r == match (Summary(highlightId, reel), ListOf(reel.items))
           case (Failure(e), _) => Failure(e)
           case (_, Failure(e)) => Failure(e)
           case (Success(info), Success(items)) => Success((info, Collect(items)))
  {
    var result := Request(reply);
    if result.Failure? {
      return Failure(result.error);
    }
    var found := FindReel(highlightId, result.value);
    if found.Failure? {
      return Failure(found.error);
    }
    var reel := found.value;
    var info := Summary(highlightId, reel);
    if info.Failure? {
      return Failure(info.error);
    }
    var items := ListOf(reel.items);
    if items.Failure? {
      return Failure(items.error);
    }
    var stories := CollectStories(items.value);
    return Success((info.value, stories));
  }
}
