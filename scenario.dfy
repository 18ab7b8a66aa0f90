/**
 * A highlight URL end to end: the classifier yields the highlight id, and a
 * reels-media response that has no reel under "highlight:<id>" makes the
 * highlight fetch raise `InstagramError("Highlight not found", 404)`.
 */
module HighlightScenario {
  import opened Wrappers
  import opened Errors
  import opened PyText
  import opened Url
  import opened InputClassifier
  import opened ApiRequest
  import opened ReelFetcher

  /** The fetch of a highlight whose reel is absent from the response. */
  lemma {:induction false} AbsentHighlightIsNotFound(highlightId: string, media: ReelsMedia)
    requires media.reels.Missing? || (media.reels.Given? && HighlightKey(highlightId) !in media.reels.v)
    ensures FindReel(highlightId, media) == Failure(HighlightNotFound)
  {
  }

  /** "https://instagram.com/highlights/123456", classified, then fetched from a response without its reel. */
  lemma HighlightUrlWithoutReel(media: ReelsMedia)
    requires media.reels.Given? && "highlight:123456" !in media.reels.v
    ensures Classify("https://instagram.com/highlights/123456") == Success(Highlight("123456"))
    ensures FindReel("123456", media) == Failure(InstagramError("Highlight not found", 404))
  {
    assert HighlightKey("123456") == "highlight:123456";
    AbsentHighlightIsNotFound("123456", media);
    ExampleUrl("instagram.com", "123456");
  }

  lemma ExampleUrl(host: string, id: string)
    requires host == "instagram.com" && id == "123456"
    ensures Classify("https://instagram.com/highlights/123456") == Success(Highlight(id))
  {
    ExampleUrlParts(host, id);
    HighlightUrl(host, id);
  }

  lemma ExampleUrlParts(host: string, id: string)
    requires host == "instagram.com" && id == "123456"
    ensures "https://instagram.com/highlights/123456" == "https://" + host + ("/highlights/" + id)
    ensures IsPlainHost(host) && Contains(host, ServiceDomain)
    ensures IsSegment(id) && IsPlainPath("/" + id) && !IsSpace(id[|id| - 1])
  {
    assert OccursAt(host, ServiceDomain, 0);
  }
}
