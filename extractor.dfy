/**
 * `InstagramClient._extract_story`: turn one raw reel item into the story
 * record the routes serve.  Every field is read with `.get(key, default)`,
 * so an absent key takes the default and a JSON null passes through as
 * `None`.  The thumbnail is the image candidate with the largest
 * width x height (the first one among equals, as Python's `max` keeps it),
 * and the video is chosen the same way, only for media type 2.  Any
 * exception raised on the way (a field looked up on `None`, a null width
 * multiplied) is caught and the item yields no story at all.
 */
module StoryExtractor {
  import opened Wrappers
  import opened Errors
  import opened PyJson

  /** One entry of `image_versions2.candidates` or of `video_versions`. */
  datatype Candidate = Candidate(url: Value<string>, width: Value<int>, height: Value<int>)

  datatype ImageVersions = ImageVersions(candidates: Value<seq<Candidate>>)

  /** The `user` object of an item or of a highlight reel. */
  datatype RawUser = RawUser(
    pk: Value<Scalar>, username: Value<string>, fullName: Value<string>, profilePicUrl: Value<string>)

  /** A reel item as the private API sends it. */
  datatype RawItem = RawItem(
    pk: Value<Scalar>,
    id: Value<string>,
    code: Value<string>,
    takenAt: Value<int>,
    mediaType: Value<int>,
    user: Value<RawUser>,
    videoDuration: Value<real>,
    imageVersions: Value<ImageVersions>,
    videoVersions: Value<seq<Candidate>>)

  /** The `user` summary of a story or a highlight; `None` stands for a null passed through. */
  datatype Owner = Owner(pk: string, username: Option<string>, fullName: Option<string>, profilePicUrl: Option<string>)

  /** The story record; `None` stands for Python's `None`. */
  datatype Story = Story(
    pk: string,
    id: Option<string>,
    code: Option<string>,
    takenAt: Option<int>,
    mediaType: Option<int>,
    user: Owner,
    thumbnailUrl: Option<string>,
    videoUrl: Option<string>,
    videoDuration: Option<real>)

  /** The `user` summary: `d.get("user", {})` and then each field with its default. */
  function OwnerSummary(user: Value<RawUser>): (r: Result<Owner, Exception>)
    ensures r.Failure? <==> user.Null?
    ensures r.Failure? ==> r.error == ShapeError(AttributeError)
    ensures user.Missing? ==> r == Success(Owner("", Some(""), Some(""), Some("")))
    ensures user.Given? ==> r.Success? && r.value.pk == StrOrEmpty(user.v.pk)
    ensures user.Given? ==>
      && r.value.username == Get(user.v.username, "")
      && r.value.fullName == Get(user.v.fullName, "")
      && r.value.profilePicUrl == Get(user.v.profilePicUrl, "")
  {
    match user
    case Missing => Success(Owner("", Some(""), Some(""), Some("")))
    case Null => Failure(ShapeError(AttributeError))
    case Given(u) =>
      Success(Owner(StrOrEmpty(u.pk), Get(u.username, ""), Get(u.fullName, ""), Get(u.profilePicUrl, "")))
  }

  /** The `max` key `x.get("width", 0) * x.get("height", 0)`; `None` when it raises TypeError. */
  function Area(c: Candidate): (r: Option<int>)
    ensures r.Some? <==> !c.width.Null? && !c.height.Null?
    ensures c.width.Missing? && !c.height.Null? ==> r == Some(0)
    ensures c.height.Missing? && !c.width.Null? ==> r == Some(0)
  {
    match (Get(c.width, 0), Get(c.height, 0))
    case (Some(w), Some(h)) => Some(w * h)
    case _ => None
  }

  /** Every candidate has a key `max` can compute. */
  predicate Sized(cands: seq<Candidate>) {
    forall i :: 0 <= i < |cands| ==> Area(cands[i]).Some?
  }

  /** Candidate `k` is the one Python's `max` returns: no other is larger and every earlier one is smaller. */
  predicate IsFirstLargest(cands: seq<Candidate>, k: nat)
    requires Sized(cands)
  {
    && k < |cands|
    && (forall i :: 0 <= i < |cands| ==> Area(cands[i]).value <= Area(cands[k]).value)
    && (forall i :: 0 <= i < k ==> Area(cands[i]).value < Area(cands[k]).value)
  }

  /** `max(cands, key=area)`: a left fold that replaces the best only by a strictly larger candidate. */
  function MaxAreaIndex(cands: seq<Candidate>): (k: nat)
    requires cands != [] && Sized(cands)
    ensures IsFirstLargest(cands, k)
  {
    if |cands| == 1 then 0
    else
      var init := cands[..|cands| - 1];
      var k := MaxAreaIndex(init);
      assert forall i :: 0 <= i < |init| ==> init[i] == cands[i];
      if Area(cands[|cands| - 1]).value > Area(cands[k]).value then |cands| - 1 else k
  }

  /** At most one candidate is the first largest. */
  lemma FirstLargestIsUnique(cands: seq<Candidate>, j: nat, k: nat)
    requires Sized(cands) && IsFirstLargest(cands, j) && IsFirstLargest(cands, k)
    ensures j == k
  {
    assert Area(cands[j]).value == Area(cands[k]).value;
  }

  /** `best.get("url")`: `None` when the key is absent or null. */
  function UrlOf(c: Candidate): Option<string>
  {
    if c.url.Given? then Some(c.url.v) else None
  }

  /**
   * The URL of `max(cands, key=area)`: that of the first largest candidate,
   * or TypeError when some candidate has a null dimension.
   */
  function BestUrl(cands: seq<Candidate>): (r: Result<Option<string>, Exception>)
    requires cands != []
    ensures r.Failure? <==> !Sized(cands)
    ensures r.Failure? ==> r.error == ShapeError(TypeError)
    ensures r.Success? ==> forall k: nat :: IsFirstLargest(cands, k) ==> r.value == UrlOf(cands[k])
  {
    if Sized(cands) then
      var best := MaxAreaIndex(cands);
      assert forall k: nat :: IsFirstLargest(cands, k) ==> k == best by {
        forall k | IsFirstLargest(cands, k) ensures k == best {
          FirstLargestIsUnique(cands, k, best);
        }
      }
      Success(UrlOf(cands[best]))
    else Failure(ShapeError(TypeError))
  }

  /** The thumbnail: only when `image_versions2` is present; a null there raises AttributeError. */
  function Thumbnail(images: Value<ImageVersions>): (r: Result<Option<string>, Exception>)
    ensures r.Failure? <==>
      images.Null? || (images.Given? && images.v.candidates.Given? && !Sized(images.v.candidates.v))
    ensures images.Null? ==> r.error == ShapeError(AttributeError)
    ensures r.Success? && r.value.Some? ==>
      images.Given? && images.v.candidates.Given? && images.v.candidates.v != []
  {
    match images
    case Missing => Success(None)
    case Null => Failure(ShapeError(AttributeError))
    case Given(iv) =>
      match iv.candidates
      case Given(cands) => if cands == [] then Success(None) else BestUrl(cands)
      case _ => Success(None)
  }

  /** The video: only for media type 2 with `video_versions` present and non-empty. */
  function VideoUrl(mediaType: Value<int>, versions: Value<seq<Candidate>>): (r: Result<Option<string>, Exception>)
    ensures r.Failure? <==> mediaType == Given(2) && versions.Given? && !Sized(versions.v)
    ensures r.Success? && r.value.Some? ==> mediaType == Given(2) && versions.Given? && versions.v != []
    ensures mediaType == Given(2) && versions.Given? && versions.v != [] && Sized(versions.v) ==>
      r.Success? && forall k: nat :: IsFirstLargest(versions.v, k) ==> r.value == UrlOf(versions.v[k])
  {
    if mediaType == Given(2) && versions.Given? && versions.v != [] then BestUrl(versions.v)
    else Success(None)
  }

  /** The item has the shape `_extract_story` can read without raising. */
  predicate WellFormed(item: RawItem) {
    && !item.user.Null?
    && !item.imageVersions.Null?
    && (item.imageVersions.Given? && item.imageVersions.v.candidates.Given? ==>
          Sized(item.imageVersions.v.candidates.v))
    && (item.mediaType == Given(2) && item.videoVersions.Given? ==> Sized(item.videoVersions.v))
  }

  /**
   * `_extract_story(item)`; `None` for an element of the item list that is not
   * an object, and for an item on which extraction raised.
   */
  function ExtractStory(item: Option<RawItem>): (r: Option<Story>)
    ensures r.Some? <==> item.Some? && WellFormed(item.value)
    ensures r.Some? ==>
      && r.value.pk == StrOrEmpty(item.value.pk)
      && r.value.id == Get(item.value.id, "")
      && r.value.code == Get(item.value.code, "")
      && r.value.takenAt == Get(item.value.takenAt, 0)
      && r.value.mediaType == Get(item.value.mediaType, 1)
      && r.value.videoDuration == Get(item.value.videoDuration, 0.0)
      && OwnerSummary(item.value.user) == Success(r.value.user)
  {
    match item
    case None => None
    case Some(it) =>
      match (OwnerSummary(it.user), Thumbnail(it.imageVersions), VideoUrl(it.mediaType, it.videoVersions))
      case (Success(owner), Success(thumbnail), Success(video)) =>
        Some(Story(
          StrOrEmpty(it.pk), Get(it.id, ""), Get(it.code, ""), Get(it.takenAt, 0), Get(it.mediaType, 1),
          owner, thumbnail, video, Get(it.videoDuration, 0.0)))
      case _ => None
  }

  /** The story's thumbnail is the URL of the first largest image candidate. */
  lemma ThumbnailIsFirstLargest(item: RawItem, k: nat)
    requires ExtractStory(Some(item)).Some?
    requires item.imageVersions.Given? && item.imageVersions.v.candidates.Given?
    requires Sized(item.imageVersions.v.candidates.v) && IsFirstLargest(item.imageVersions.v.candidates.v, k)
    ensures ExtractStory(Some(item)).value.thumbnailUrl == UrlOf(item.imageVersions.v.candidates.v[k])
  {
  }

  /** For media type 2, the story's video is the URL of the first largest video version. */
  lemma VideoIsFirstLargest(item: RawItem, k: nat)
    requires ExtractStory(Some(item)).Some?
    requires item.mediaType == Given(2) && item.videoVersions.Given?
    requires Sized(item.videoVersions.v) && IsFirstLargest(item.videoVersions.v, k)
    ensures ExtractStory(Some(item)).value.videoUrl == UrlOf(item.videoVersions.v[k])
  {
  }

  /** A story has a video URL only for media type 2 with video versions present. */
  lemma VideoOnlyForMediaType2(item: RawItem)
    requires ExtractStory(Some(item)).Some? && ExtractStory(Some(item)).value.videoUrl.Some?
    ensures item.mediaType == Given(2) && item.videoVersions.Given? && item.videoVersions.v != []
  {
  }

  /** Without image versions, or with a candidate list that is absent, null or empty, there is no thumbnail. */
  lemma NoCandidatesNoThumbnail(item: RawItem)
    requires ExtractStory(Some(item)).Some?
    requires item.imageVersions.Missing? || item.imageVersions.v.candidates in {Missing, Null, Given([])}
    ensures ExtractStory(Some(item)).value.thumbnailUrl == None
  {
  }

  /** Of a 100x100 and a 300x300 candidate, in either order, the larger one is the thumbnail. */
  lemma LargerCandidateWins(small: string, large: string)
    ensures var a := Candidate(Given(small), Given(100), Given(100));
      var b := Candidate(Given(large), Given(300), Given(300));
      && BestUrl([a, b]) == Success(Some(large))
      && BestUrl([b, a]) == Success(Some(large))
  {
    var a := Candidate(Given(small), Given(100), Given(100));
    var b := Candidate(Given(large), Given(300), Given(300));
    assert IsFirstLargest([a, b], 1);
    assert IsFirstLargest([b, a], 0);
  }

  /** Among candidates of equal area, the first one is kept. */
  lemma EqualAreasKeepFirst(first: string, second: string)
    ensures var a := Candidate(Given(first), Given(200), Given(300));
      var b := Candidate(Given(second), Given(300), Given(200));
      BestUrl([a, b]) == Success(Some(first))
  {
    var a := Candidate(Given(first), Given(200), Given(300));
    var b := Candidate(Given(second), Given(300), Given(200));
    assert IsFirstLargest([a, b], 0);
  }
}
