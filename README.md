# Instagram story downloader core, modelled in Dafny

The service takes a handle or an Instagram URL, resolves it to an account id
or a highlight id, fetches the account's active stories or the highlight's
stories from Instagram's private API, and serves them. Its download proxy
fetches media only from an allow-listed set of domains.

This project models that core from `app.py` as it is written:

- `InputClassifier`: `parse_instagram_input` turns what the user typed into `("username", v)`, into `("highlight", v)`, or into a `ValueError`.
- `Url`: the part of `urllib.parse.urlparse` (CPython 3.12) that the classifier and the guard depend on.
- `Strategies`: the four id lookups that `get_user_id` tries before the mobile API, plus the mobile lookup itself. Each one is a function or method of its network reply.
- `IdentityResolver`: `get_user_id` normalises the username, then runs the five-strategy chain with its exact catching rules. Each strategy is an oracle, so the chain is proved for every combination of strategy outcomes.
- `StoryExtractor`: `_extract_story` builds a story with `.get` defaults. The thumbnail and the video are picked by Python's `max` on width × height. An item on which extraction raises yields no story.
- `ReelFetcher`: `get_user_stories` and `get_highlight_stories`, given the reply to their request. This includes the highlight summary and the 404 for a missing reel.
- `ApiRequest`: the outcome mapping of `_request` (status codes and transport failures to `InstagramError`).
- `Errors`: `InstagramError` and the Python faults the core can meet: AttributeError, KeyError and TypeError on malformed JSON, and the HTTP library's exceptions.
- `DownloadGuard`: `is_allowed_download_url` with the allow-list of `config.py`, plus a corrected host check.
- `BareHostInput`: a corrected classifier for scheme-less profile addresses (see Findings).
- `HighlightScenario`: the highlight URL end to end.
- Support modules: `PyText` covers `strip`, `lower`, `lstrip`, `split`, `in`, `find` and `str(int)`. `PyJson` covers `.get` on absent versus null keys, `str(...)` and iteration of a possibly-null list.

Decoded JSON is typed. Every key the core reads is a `Value`: `Missing`, `Null` or `Given(v)`. So `d.get(k, default)` gives the default for an absent key and `None` for a null one. A field lookup on `None` raises AttributeError. Iterating `None` raises TypeError.

Where the prose design of the service and the code differ, the model follows the code:

- The code lower-cases, then strips, then removes every leading '@' (`lstrip("@")`), not just one.
- A plain handle is stripped of every leading '@' before it is lower-cased.
- The mobile strategy swallows only `InstagramError`. Any other exception it raises leaves `get_user_id`, for example the KeyError of a truthy `user` object without `"pk"`.
- The mobile strategy accepts any id it returns, even an empty one.
- The highlight fetch raises TypeError, not a 404, when the `reels` key holds null.

## Model

| member | source | states |
|---|---|---|
| ApiRequest.Request | app.py:178-219 | Success exactly for a 200 with a JSON body, returning that body. Every failure is an `InstagramError`. A non-200 status keeps its status as the code. Timeout is 504, connection error 503, any other library failure (including an undecodable 200) 500. |
| Strategies.PagePatterns | app.py:361-377 | Four patterns are tried. Only the third one embeds the username, and it embeds the normalised username itself. |
| Strategies.FirstMatch | app.py:359-381 | A found id is the capture of one of the patterns. No id means that no pattern matched. |
| Strategies.FirstMatchIsEarliest | app.py:359-381 | The page scrape finds an id iff some pattern matches. When it does, the id is the capture of the first matching pattern, in order. |
| Strategies.ScrapeProfilePage | app.py:345-381 | A transport failure raises, and it is the only way to raise. A non-200 page gives `None`. A 200 page gives the first match of the four patterns in order: an id iff some pattern matches, and then the capture of the first pattern that matches. |
| Strategies.EntryVerdict | app.py:312-315 | The scan goes on past an entry iff the entry is a well-formed user whose lower-cased username differs from the searched one. An entry naming the searched user ends the scan with its `str(pk)`. A null entry or a null username raises AttributeError; a missing `pk` raises KeyError. A returned id always comes from an entry that names the user. |
| Strategies.ScanUsers | app.py:312-317 | The scan returns `None` iff every entry lets it go on. Otherwise it returns the verdict of the first entry that does not, and every earlier entry let it go on. |
| Strategies.ScanFindsNamedUser | app.py:402-405 | A found id comes from an entry whose username equals the searched one case-insensitively. Every earlier entry is a well-formed user with a different username. |
| Strategies.FirstNamedUserIsFound | app.py:312-317 | Conversely, when entry k names the user and every earlier entry names someone else, the scan returns entry k's id. |
| Strategies.GraphQLUsers | app.py:311 | An absent `data` or an absent connection gives an empty list. A null `data` or a null connection raises AttributeError. A present connection gives its `users` list, where a null list raises TypeError and an absent one is empty. |
| Strategies.LookupGraphQL | app.py:272-317 | A non-200 reply gives `None`. A 200 that is not JSON raises the decode error; a transport failure raises. Failures of the user list propagate. A 200 reply with a user list gives the scan's answer: the first entry that does not let the scan go on decides, and `None` iff there is none. A returned id names the user, and every earlier entry names someone else. |
| Strategies.LookupTopSearch | app.py:383-407 | The same as LookupGraphQL for the legacy top search. An absent `users` gives `None`; a null `users` raises TypeError. |
| Strategies.WebProfileLookup | app.py:319-343 | A non-200 reply gives `None`; a transport failure or an undecodable 200 raises. A null `data` raises AttributeError. A truthy `data.user` gives `str(user["id"])`, or KeyError without `"id"`. Any other 200 reply gives `None`. A returned id is always that `str(user["id"])`. |
| Strategies.MobileLookup | app.py:262-265 | `_request`'s error is raised as is. A truthy `user` gives `str(user["pk"])`, or KeyError without `"pk"`. Any other successful reply gives `None`. No other exception is raised. |
| IdentityResolver.Normalize | app.py:223 | The result is `Lower(username)[i..j]`, where `username[..a]` and `username[j..]` are whitespace, `username[a..i]` is all '@', and `username[a]` and `username[j-1]` are not whitespace. It has no leading '@' and no upper-case ASCII letter. |
| IdentityResolver.NormalizePadded | app.py:223 | A name padded with spaces and preceded by any number of '@' normalises to the name lower-cased. |
| IdentityResolver.StepOf | app.py:225-268 | Strategies 1-4 never abort. A win carries the returned id, and is non-empty for strategies 1-4. Strategy 5 aborts exactly on a raised exception that is not an `InstagramError`. Conversely, a returned non-empty id wins for every strategy, and any returned id wins for strategy 5. |
| IdentityResolver.Chain | app.py:225-268 | A resolved id is the win of some strategy in the chain. An error other than not-found is the abort of some strategy. |
| IdentityResolver.Invoked | app.py:225-268 | The number of strategies invoked is at least one and at most the chain's length. |
| IdentityResolver.Resolve | app.py:221-270 | The not-found error naming the normalised username is the result iff all five strategies fall through. A resolved id is one that some strategy returned for the normalised username, and it is non-empty unless the mobile strategy supplied it. |
| IdentityResolver.FirstDecisiveStrategyDecides | app.py:225-268 | The first strategy that does not fall through decides the result and is the last one invoked. No later strategy is called. |
| IdentityResolver.InvokedExactlyAfterFallThrough | app.py:225-268 | Strategy j is invoked iff every strategy before it fell through. |
| IdentityResolver.NotFoundExactlyWhenAllFallThrough | app.py:225-270 | The not-found error naming the normalised username is raised iff every strategy fell through, and then all of them were invoked. |
| IdentityResolver.ChainIdComesFromAStrategy | app.py:225-265 | A resolved id is one some strategy returned. Only the mobile strategy can contribute an empty one. |
| IdentityResolver.OnlyMobileFaultsEscape | app.py:258-270 | The only errors that leave the chain are the not-found error and a non-`InstagramError` raised by the mobile lookup. |
| IdentityResolver.TryNext | app.py:225-268 | Trying the next strategy after k fell through either decides the chain, with the count of invocations so far, or extends the fall-through by one. |
| IdentityResolver.Attempt | app.py:225-268 | One `try` block: it appends the invoked strategy to the calls. It then returns the chain's result, or establishes that one more strategy fell through. |
| IdentityResolver.TryStrategies | app.py:225-270 | The five blocks in order compute the chain's result. They invoke exactly the chain's count of strategies, in order, each with the normalised name. |
| IdentityResolver.GetUserId | app.py:221-270 | `get_user_id` returns the chain result for the normalised username. It calls the strategies in order and stops at the deciding one. |
| StoryExtractor.OwnerSummary | app.py:483-488 | The owner summary fails (AttributeError) iff `user` is null. An absent `user` gives empty fields. A present one gives `str(user.get("pk", ""))` and the `.get(..., "")` values of username, full name and profile picture. |
| StoryExtractor.Area | app.py:498 | The `max` key is defined iff neither dimension is null. An absent dimension counts as 0. |
| StoryExtractor.MaxAreaIndex | app.py:498 | `max` returns the first candidate of largest area. |
| StoryExtractor.FirstLargestIsUnique | app.py:498 | At most one candidate is the first of largest area. |
| StoryExtractor.BestUrl | app.py:495-506 | A TypeError exactly when some candidate has a null dimension. Otherwise the URL is that of the first largest candidate. |
| StoryExtractor.Thumbnail | app.py:495-499 | Fails iff `image_versions2` is null or its candidates cannot be ranked. A thumbnail exists only for a non-empty candidate list. |
| StoryExtractor.VideoUrl | app.py:502-506 | Fails iff media type 2 has unrankable video versions. A video URL exists only for media type 2 with a non-empty version list. For media type 2 with a non-empty rankable list it is the URL of the first largest version. |
| StoryExtractor.ExtractStory | app.py:474-511 | A story exists iff the item is an object and well formed. Its fields are the `.get` values with their defaults: pk `""`, id `""`, code `""`, taken_at 0, media_type 1, video_duration 0. Its owner is the owner summary. |
| StoryExtractor.ThumbnailIsFirstLargest | app.py:495-499 | The thumbnail is the URL of the first largest image candidate. |
| StoryExtractor.VideoIsFirstLargest | app.py:502-506 | The story's video URL is the URL of the first largest video version. |
| StoryExtractor.VideoOnlyForMediaType2 | app.py:502-506 | A video URL implies media type 2 with a non-empty version list. |
| StoryExtractor.NoCandidatesNoThumbnail | app.py:495-497 | Without `image_versions2`, or with absent, null or empty candidates, there is no thumbnail. |
| StoryExtractor.LargerCandidateWins | app.py:498 | Of a 100×100 and a 300×300 candidate, in either order, the 300×300 URL is chosen. |
| StoryExtractor.EqualAreasKeepFirst | app.py:498 | Of two candidates of equal area the first is chosen. |
| ReelFetcher.CollectAppend | app.py:428-432 | Collecting a concatenation is the concatenation of the collections. |
| ReelFetcher.Collect | app.py:428-432 | At most one story per item. |
| ReelFetcher.CollectKeepsExtractedInOrder | app.py:428-432 | At most one story per item. All items extract: the stories are their extractions in order. None extract: no stories. Every story comes from some item. |
| ReelFetcher.CollectKeepsAll | app.py:428-432 | When every item extracts, the stories are their extractions, pointwise and in order. |
| ReelFetcher.CollectDropsAll | app.py:428-432 | When no item extracts, there are no stories. |
| ReelFetcher.CollectKeepsOnlyExtracted | app.py:466-470 | Every collected story is the extraction of some item. |
| ReelFetcher.CollectStories | app.py:428-432 | The loop's result is the extraction of the items in order, dropping those that yield none. |
| ReelFetcher.FeedItems | app.py:425-426 | An absent or null reel, or an absent item list, has no items. A present item list is returned as is. A null item list is the only failure, and it is a TypeError. |
| ReelFetcher.GetUserStories | app.py:418-434 | `_request`'s error propagates, as does the TypeError of a null item list. Otherwise the result is the collected stories. |
| ReelFetcher.HighlightKey | app.py:445 | The key is "highlight:" followed by the id. |
| ReelFetcher.CoverUrl | app.py:457 | AttributeError iff a null sits on the `cover_media` path. An absent step gives `""`. A present `cropped_image_version` gives its `url`: the string, `""` when absent, `None` when null. |
| ReelFetcher.Summary | app.py:453-463 | The summary fails (AttributeError) iff the cover or the user is null. Otherwise: the id, the title with default "Highlight", the cover URL and the owner summary. |
| ReelFetcher.FindReel | app.py:444-450 | "Highlight not found" (404) iff `reels` is not null and the key is absent. A null `reels` gives TypeError. A present key gives the reel under it, or AttributeError when that reel is null. |
| ReelFetcher.GetHighlightStories | app.py:436-472 | `_request`'s error, the reel lookup's error, the summary's error or the item list's error propagate, in that order. Otherwise the result is the summary and the collected stories. |
| InputClassifier.PathParts | app.py:551 | Every path part is a non-empty segment without '/'. |
| InputClassifier.Handle | app.py:574 | The handle is the lower-cased rest of the text after a leading run of '@'. It has no leading '@' and no upper-case ASCII letter. |
| InputClassifier.ClassifyPath | app.py:553-571 | Failures are ValueErrors. With "highlights" before the last part, the result is the highlight named by the part after its first occurrence. Otherwise, with "stories" before the last part, the username after its first occurrence. With neither keyword, the first part as the username. A highlight result implies a "highlights" part, and a "highlights" part excludes a username result. |
| InputClassifier.Classify | app.py:541-574 | It fails only with a ValueError, and only on input whose stripped form contains "instagram.com". Other input names the user `Handle` of the stripped input: every leading '@' removed, then lower-cased. |
| InputClassifier.HighlightSegmentWins | app.py:554-557 | `highlights/<x>`, with no earlier "highlights", yields `("highlight", x)` whatever follows. |
| InputClassifier.StoriesSegmentNamesUser | app.py:561-564 | `stories/<x>` yields `("username", x)`, as written, when there is no "highlights" and no earlier "stories". |
| InputClassifier.ClassifyPathFails | app.py:553-571 | The URL branch raises iff there are no segments, or the first deciding keyword is the last segment. |
| InputClassifier.HandleIsLowered | app.py:573-574 | Any number of '@' followed by a name without the domain names the name lower-cased. |
| InputClassifier.AtFooNamesFoo | app.py:574 | "@Foo" and "@@Foo" both name the user "foo". |
| InputClassifier.HighlightUrl | app.py:546-557 | `https://<host>/highlights/<id>` on a host containing the domain yields exactly `("highlight", id)`. |
| InputClassifier.StoriesUrl | app.py:546-564 | `https://<host>/stories/<name>` yields `("username", name)`, as written. |
| InputClassifier.ProfileUrl | app.py:546-569 | `https://<host>/<name>` on a host containing the domain, with `name` neither keyword, yields `("username", name)`. |
| InputClassifier.HttpsUrlClassifiesPath | app.py:546-551 | An https URL with two path segments on a host containing the domain is classified by those two segments. |
| Url.UrlParse | app.py:550 | The only exception is ValueError("Invalid IPv6 URL"). The path holds no '#' or '?'. The netloc holds no '/', '?' or '#'. |
| Url.ParseHttpsUrl | app.py:550 | `https://` + plain host + plain path parses back into exactly that scheme, host and path. |
| Url.ParsePlainPath | app.py:550 | Text with no scheme, no leading '/' and no splitting character parses into a bare path with an empty netloc. |
| DownloadGuard.AnyContained | app.py:582 | True iff some allowed domain occurs in the text. |
| DownloadGuard.IsAllowedDownloadUrl | app.py:577-584 | An unparsable URL is refused. A parsed one is allowed iff some allowed domain is a substring of its lower-cased netloc. |
| DownloadGuard.HostSpan | app.py:581 | The host lies between the last '@' and the next ':' of the netloc and contains neither. |
| DownloadGuard.HostOf | app.py:581 | The host holds no '@' and no ':'. A netloc with neither is all host. |
| DownloadGuard.IsAllowedDownloadHost | app.py:577-584 | Corrected guard: allowed iff the lower-cased host is an allowed domain or a subdomain of one. Anything it allows, the legacy guard allows. |
| DownloadGuard.MatchesDomain | app.py:582 | A host that is a domain or one of its subdomains contains that domain. |
| DownloadGuard.MatchedHostIsContained | app.py:582 | A domain the host matches occurs in the lower-cased netloc. |
| DownloadGuard.LegacyGuardOnHttpsUrl | app.py:577-582 | On an https URL with a simple host, the legacy guard accepts iff the host contains an allowed domain. |
| DownloadGuard.CorrectedGuardOnHttpsUrl | app.py:577-582 | On the same URLs, the corrected guard accepts iff the host is an allowed domain or a subdomain of one. |
| DownloadGuard.LegacyGuardAcceptsLookalikeHost | app.py:582 | The legacy guard accepts `https://instagram.com.evil.example/x`. |
| DownloadGuard.CorrectedGuardRejectsLookalikeHost | app.py:582 | The corrected guard refuses that URL. |
| DownloadGuard.GuardsAcceptCdnSubdomain | config.py:55-60 | The corrected guard still accepts `https://scontent.cdninstagram.com/v/a.jpg`. |
| BareHostInput.ClassifyCorrected | app.py:546-574 | The corrected classifier fails only with a ValueError, and only on input containing the domain. |
| BareHostInput.SiteRelativeParts | app.py:549-569 | With a netloc, the segments are the path's. Without one, at most the path's segments are kept. |
| BareHostInput.CorrectedAgreesWhenNetlocPresent | app.py:549-571 | Wherever the parsed URL has a netloc or parsing fails, the corrected classifier answers as the original. |
| BareHostInput.BareProfileNamesTheHost | app.py:549-569 | As written, `<host>/<name>` without a scheme, on a host containing the domain, names the user `<host>`. |
| BareHostInput.CorrectedBareProfileNamesTheUser | app.py:549-569 | Corrected, the same input names the user `<name>`. |
| BareHostInput.NatGeoNamesTheHost | app.py:549-569 | As written, "instagram.com/natgeo" names the user "instagram.com". |
| BareHostInput.NatGeoNamesTheUser | app.py:549-569 | Corrected, "instagram.com/natgeo" names the user "natgeo". |
| HighlightScenario.AbsentHighlightIsNotFound | app.py:444-448 | A response without the highlight's reel gives "Highlight not found" with code 404. |
| HighlightScenario.HighlightUrlWithoutReel | app.py:436-448 | "https://instagram.com/highlights/123456" classifies as highlight "123456". A response without "highlight:123456" then gives the 404. |

## Left out

- The HTTP session is not modelled: its cookies, headers, device ids, retry adapter and the random delay before each request. What the session finally returns or raises is an input of each operation.
- The global client singleton (`get_client`, `reset_client`), the Flask routes, the rate limiter, logging and the download proxy's streaming are not modelled.
- `get_user_info` is not modelled; no modelled operation calls it.
- The page-scrape regular expressions are an oracle `search(pattern, text)`. Only their order is modelled, along with the username that the third pattern embeds. The oracle is unconstrained: the model lets it capture any string, including an empty or non-digit one, whereas every pattern's `(\d+)` group captures only a non-empty run of digits. So `ScrapeProfilePage` may return ids the page scrape could not.
- `IdentityResolver.GetUserId` takes each strategy as an oracle `lookup(strategy, name)`. The `Strategies` module models what each strategy computes from its reply. The two are linked only through the `Outcome` type, not composed into one function of five replies.
- `PyText.Lower` lower-cases ASCII letters only. Python's `str.lower` also folds non-ASCII letters.
- `Url.UrlParse` leaves out the bracketed-netloc validation and the NFKC netloc check of CPython. It models only the part of `urlparse` that decides scheme, netloc, path, parameters, query and fragment.
- JSON values of an unexpected type are not modelled, except where a null stands in for them: a string where an object is expected, or a number as a username. Examples are an `image_versions2` that is a list, or a candidate that is not an object. This includes the top-level reply: each decoded 200 body is an object of its reply type. A top-level `null` or list cannot be represented. In the source such a body makes `result.get(...)` raise AttributeError. In the mobile strategy (app.py:262-265) that error is not an `InstagramError`, so it would leave `get_user_id`.
- `video_duration` is a `real`, and its default 0 is written 0.0.
- Python's `max` on an empty list cannot occur: the source tests for emptiness first, and so does the model.
- An undecodable 200 body is reported as 500. This relies on the HTTP library's decode error being one of its own request exceptions, as in `requests` 2.27 and later.

## Findings

| source | as written | input that shows it | evidently intended | confidence | as-written member | corrected member |
|---|---|---|---|---|---|---|
| app.py:582 | the download guard accepts a URL when an allowed domain is a substring of its lower-cased netloc | `https://instagram.com.evil.example/x` is allowed | only hosts that are an allowed domain or a subdomain of one are allowed | high (not executed) | DownloadGuard.LegacyGuardAcceptsLookalikeHost | DownloadGuard.CorrectedGuardRejectsLookalikeHost |
| app.py:549-569 | input containing "instagram.com" is parsed as a URL even without a scheme; `urlparse` then puts the host into the path, and the first segment is taken as the username | `instagram.com/natgeo` names the user `instagram.com` | the profile name `natgeo` | medium (not executed) | BareHostInput.NatGeoNamesTheHost | BareHostInput.NatGeoNamesTheUser |

The corrected definitions are `DownloadGuard.IsAllowedDownloadHost` and
`BareHostInput.ClassifyCorrected`. The general forms of the two findings are
`DownloadGuard.LegacyGuardOnHttpsUrl` / `DownloadGuard.CorrectedGuardOnHttpsUrl`
and `BareHostInput.BareProfileNamesTheHost` /
`BareHostInput.CorrectedBareProfileNamesTheUser`.
