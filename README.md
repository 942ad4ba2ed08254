# Memeiverse feed aggregation, modelled in Dafny

This project models the feed core of Memeiverse, an iOS app that shows meme "content cards".
The core has four parts:

- the `Meme` record, its `Source`, and the `withTrending` copy (`Memeiverse/Meme.swift`);
- the five hand-written curated classics, optionally shuffled (`Memeiverse/MemeRepository.swift`);
- the feed service (`Memeiverse/MemeFeedService.swift`):
  - one GET to meme-api.com, and the classification of its outcome into records or a `MemeFeedError`;
  - the tolerant JSON decoder;
  - the trending feed: ranked by upvotes, deduplicated, flagged;
  - the discovery feed: shuffled, then deduplicated;
  - the one-pass `deduplicate`;
- the `GameDirector` session controller, which owns the load state and the three lists (`Memeiverse/GameDirector.swift`).

Modules, one per component:

- `Basics`: `Option`, `Result`, the limit clamp, prefixes and subsequences.
- `Decimal`: Swift's `"\(n)"` for an `Int`, and a parser that reads it back.
- `MemeModel`: `Meme`, `Source`, `withTrending`.
- `FeedErrors`: `MemeFeedError` and `errorDescription`.
- `MemeAPIDecoder`: the response decoder.
- `CommunityMemeAPI`: `fetchMemes(limit:)`.
- `Ranking`: the upvote order.
- `Shuffling`: `shuffle()` and `shuffled()`.
- `MemeFeedService`: deduplication and the two feeds.
- `MemeRepository`: the curated classics.
- `Director`: the `GameDirector` class.

How the model is built:

- `deduplicate` is an imperative method with a loop. It is proved equal to a specification function, `Deduplicated`.
- `GameDirector` is a class whose methods update its fields.
- `shuffle()` is an in-place array algorithm.
- Everything else is a function over values.
- The network is a parameter: a function from the request URL to what `URLSession` produced.
- `URL(string:)` and `String.capitalized` are parameters as well, bundled in `Foundation`.
- The random generator is an arbitrary choice at each swap, so the model covers every order it could produce.

Behaviour of the code worth knowing:

- The feed has one upstream provider, meme-api.com. A failed fetch fails the feed.
- The error of a body that does not decode is not a `MemeFeedError`, so `fetchMemes` wraps it as `communityFailed(localizedDescription)`. Neither `decoding` nor `unknown` is ever thrown; `FetchMemes` states this.
- The dedup key depends on whether a URL is present, not on whether it is non-empty: `postURL?.absoluteString ?? imageURL?.absoluteString ?? id`. Uniqueness is promised for keys, not for `id`s.
- Inside a `memes` array, an item that fails to decode fails the whole response.
- When both feeds fail, the state carries the trending error's description, because `try await trendingTask` throws first.
- When both live lists come back empty, the state fails with "No live memes returned. Showing curated classics instead."
- `deduplicate` only checks the bound after appending. A bound below 1 therefore still lets one record through (`Cap`). Both callers clamp the bound to at least 1.
- The trending sort orders by `upvotes ?? 0`, highest first. Swift's `sorted(by:)` is stable, and so is the model's insertion sort, but the contracts state only the order. What the trending feed promises is that it keeps the best: no fetched key it drops outscores a kept record, and each kept record is a top scorer among the fetched records with its key.

## Model

| member | source | states |
|---|---|---|
| MemeModel.RawValue | Memeiverse/Meme.swift:4-7 | each case's raw value turns back into that case through `Source(rawValue:)` |
| MemeModel.SourceFromRaw | Memeiverse/Meme.swift:4-7 | `Source(rawValue:)` is nil exactly for strings other than "meme-api.com" and "curated" |
| MemeModel.DisplayName | Memeiverse/Meme.swift:74-82 | the label is "Reddit" exactly for the community source and "Curated Vault" exactly for the curated one |
| MemeModel.RawValueRoundTrip | Memeiverse/Meme.swift:4-7 | `Source(rawValue:)` of a case's raw value is that case, and a string decodes to a case exactly when it is that case's raw value |
| MemeModel.DisplayNameInjective | Memeiverse/Meme.swift:74-82 | two sources share a display name only when they are the same source |
| MemeModel.InitializerDefaults | Memeiverse/Meme.swift:23-51 | the arguments a caller omits take the initializer's defaults: nil optionals, no tags, not trending |
| MemeModel.WithTrending | Memeiverse/Meme.swift:55-71 | the copy has `isTrending == trending` and every other field equal to the original's |
| MemeModel.WithTrendingUnchanged | Memeiverse/Meme.swift:55-71 | rewriting the flag with its own value yields an equal record |
| MemeModel.WithTrendingLastWins | Memeiverse/Meme.swift:55-71 | two rewrites equal the last one alone, so `withTrending` is idempotent |
| MemeModel.WithTrendingDeterminedByRest | Memeiverse/Meme.swift:55-71 | two records become equal after a rewrite exactly when they agree on every field but the flag |
| Decimal.IntToString | Memeiverse/MemeFeedService.swift:54 | the interpolated text of an `Int` is a minus sign exactly when it is negative, followed by one or more decimal digits with no leading zero except for 0 itself |
| Decimal.IntToStringRoundTrip | Memeiverse/MemeFeedService.swift:54 | the decimal text interpolated for an `Int`, negatives included, reads back as that `Int` |
| FeedErrors.ErrorDescription | Memeiverse/MemeFeedService.swift:45-58 | the status-code message gives back its code; the community and decoding messages give back their wrapped text after the fixed prefix; the invalid-response message is non-empty and reads as no status code |
| MemeAPIDecoder.ToMeme | Memeiverse/MemeFeedService.swift:102-117 | the record has the item's post link as `id`, its title, capitalised subreddit as caption, parsed URLs, author, subreddit as the only tag and ups as upvotes; it comes from Reddit, has no timestamp, and is trending exactly when ups exceeds 5000 |
| MemeAPIDecoder.DecodeItems | Memeiverse/MemeFeedService.swift:128 | an array decodes exactly when every item does, giving those items in order; otherwise it fails with the error of the first failing item |
| MemeAPIDecoder.DecodeCollection | Memeiverse/MemeFeedService.swift:124-134 | a body that is not an object fails; an object without a `memes` key decodes exactly when it decodes as one item, giving count 1 and that item alone; with a `memes` key, a malformed count fails first; then a non-array `memes` fails with its error, an array gives its decoded items or the first failing item's error, and null gives no list; a present count is kept |
| MemeAPIDecoder.ToMemes | Memeiverse/MemeFeedService.swift:145 | one record per item, in order, each being that item's `toMeme()` |
| MemeAPIDecoder.Decode | Memeiverse/MemeFeedService.swift:142-146 | every decoded record comes from Reddit, carries upvotes and no timestamp, and is trending exactly when its upvotes exceed 5000 |
| MemeAPIDecoder.SingleObjectShape | Memeiverse/MemeFeedService.swift:129-133 | an object without a `memes` key is read as one item: a list of that record with count 1, or that item's error |
| MemeAPIDecoder.CollectionShape | Memeiverse/MemeFeedService.swift:126-128 | an object with a `memes` array and a well-formed count yields one record per item, in order, or the first failing item's error; how the object would decode as a single item plays no part |
| MemeAPIDecoder.NullMemesGiveEmptyList | Memeiverse/MemeFeedService.swift:142-146 | a `memes` key holding null decodes to an empty list, not to an error |
| MemeAPIDecoder.MalformedCountFailsWrapper | Memeiverse/MemeFeedService.swift:127 | a `count` that is not an integer fails the wrapper, whatever `memes` holds |
| CommunityMemeAPI.RequestCount | Memeiverse/MemeFeedService.swift:69 | the count asked for lies in 1...50 and equals the limit when the limit is in range |
| CommunityMemeAPI.RequestUrl | Memeiverse/MemeFeedService.swift:70 | the URL is the base path followed by text that reads back as the clamped count |
| CommunityMemeAPI.Attempt | Memeiverse/MemeFeedService.swift:71-79 | the `do` block returns records exactly when the response is HTTP with a 2xx status and its body decodes, and then returns the decoded records; it throws `invalidResponse` exactly for a non-HTTP response; a non-2xx HTTP response throws `badStatusCode` with its status; a 2xx body that fails to decode throws the decoding error; a transport error passes through as it is |
| CommunityMemeAPI.FetchMemes | Memeiverse/MemeFeedService.swift:68-87 | non-HTTP gives `invalidResponse`; a status outside 200...299 gives `badStatusCode` with that status; a 2xx body gives its decoded records or `communityFailed` with the decoding error's text; a transport error gives `communityFailed` with its text; `decoding` and `unknown` never occur; every record comes from Reddit |
| Ranking.Insert | Memeiverse/MemeFeedService.swift:13 | inserting a record adds exactly that record and keeps a list ranked by upvotes ranked |
| Ranking.SortedByUpvotes | Memeiverse/MemeFeedService.swift:13 | the sorted list is non-increasing in `upvotes ?? 0` and is a permutation of the input |
| Ranking.SubsequenceStaysRanked | Memeiverse/MemeFeedService.swift:13-14 | removing records from a ranked list, as deduplication does, leaves it ranked |
| Shuffling.Shuffle | Memeiverse/MemeRepository.swift:73-75 | the array afterwards holds the same records, each as many times as before |
| Shuffling.Shuffled | Memeiverse/MemeFeedService.swift:20 | the shuffled copy is a permutation of the input |
| Basics.ClampLimit | Memeiverse/MemeFeedService.swift:11 | `max(1, min(limit, hi))` lies in 1...hi and equals the limit when it is in range |
| MemeFeedService.DedupKey | Memeiverse/MemeFeedService.swift:28 | the key is the post URL when one is present, else the image URL when present, else the id |
| MemeFeedService.Deduplicate | Memeiverse/MemeFeedService.swift:24-35 | the loop's output is `Deduplicated(memes, maxItems)`: the one-pass result cut at the bound |
| MemeFeedService.DeduplicatedProperties | Memeiverse/MemeFeedService.swift:24-35 | the result holds min(distinct keys, bound) records with pairwise distinct keys, in input order; each is the first input record with its key; all keys survive when they fit |
| MemeFeedService.UniqueFromKeySet | Memeiverse/MemeFeedService.swift:27-31 | a pass with some keys already seen keeps exactly the keys not yet seen |
| MemeFeedService.UniqueFromDistinct | Memeiverse/MemeFeedService.swift:27-31 | a pass never keeps two records with the same key |
| MemeFeedService.UniqueFromSubsequence | Memeiverse/MemeFeedService.swift:27-31 | a pass keeps records in their input order |
| MemeFeedService.UniqueFromFirstOccurrences | Memeiverse/MemeFeedService.swift:27-31 | every kept record is the first input record with its key |
| MemeFeedService.UniqueFromKeepsDistinct | Memeiverse/MemeFeedService.swift:27-31 | a list with distinct and unseen keys passes through unchanged |
| MemeFeedService.DeduplicatedIdempotent | Memeiverse/MemeFeedService.swift:24-35 | deduplicating a deduplicated list with the same bound changes nothing |
| MemeFeedService.DeduplicatedKeepsDistinct | Memeiverse/MemeFeedService.swift:24-35 | a list with distinct keys that fits the bound comes back unchanged |
| MemeFeedService.DeduplicatedKeepsTopScores | Memeiverse/MemeFeedService.swift:13-14 | deduplicating a list ranked by upvotes keeps the best: a record whose key was cut scores no higher than any kept record, and a kept record scores at least as high as every record with its key |
| MemeFeedService.KeptOutranks | Memeiverse/MemeFeedService.swift:24-35 | on a ranked list, a kept record outscores any record with a cut key, because that key's first occurrence lies past the cut, and it outscores any record with its own key, because it is that key's first occurrence |
| MemeFeedService.TrendingRequest | Memeiverse/MemeFeedService.swift:12 | trending asks for `max(limit, 30)`: at least the clamped limit and at least 30, at most 40, and equal to one of the two |
| MemeFeedService.DiscoveryRequest | Memeiverse/MemeFeedService.swift:20 | discovery asks for `max(limit, 40)`: at least the clamped limit and at least 40, at most 60, and equal to one of the two |
| MemeFeedService.RequestedCounts | Memeiverse/MemeFeedService.swift:11-20 | whatever the limit, trending asks the community API for 30 to 40 memes and discovery for 40 to 50 |
| MemeFeedService.MarkTrending | Memeiverse/MemeFeedService.swift:15 | element by element, the result is the input record flagged trending |
| MemeFeedService.FetchTrendingMemes | Memeiverse/MemeFeedService.swift:10-16 | a failed fetch fails with the same error; otherwise there are min(distinct keys fetched, clamped limit) records, at most 40; each is a fetched record flagged trending; the list is ranked by upvotes with distinct keys; no fetched record whose key was dropped outscores a kept one, and each kept record outscores every fetched record with its key |
| MemeFeedService.MarkTrendingKeepsOrder | Memeiverse/MemeFeedService.swift:15 | flagging keeps a ranked list ranked and keeps distinct keys distinct |
| MemeFeedService.TrendingPipeline | Memeiverse/MemeFeedService.swift:12-15 | sort, deduplicate and flag give a ranked, distinct, all-trending list of the expected length, made of fetched records, that keeps the top-scoring records of the fetched list |
| MemeFeedService.TrendingKeepsTopScores | Memeiverse/MemeFeedService.swift:13-15 | after sorting, deduplicating and flagging, no fetched record whose key was dropped outscores a kept one, and each kept record outscores every fetched record with its key |
| MemeFeedService.DiscoveryResultProperties | Memeiverse/MemeFeedService.swift:18-22 | every possible discovery result has min(distinct keys fetched, limit) records with distinct keys, each taken unchanged from the fetched records |
| MemeFeedService.FetchDiscoveryMemes | Memeiverse/MemeFeedService.swift:18-22 | a failed fetch fails with the same error; otherwise the result is the deduplication of some order of the fetched records, at most 60, with distinct keys, and a sub-multiset of what was fetched |
| MemeRepository.CuratedClassics | Memeiverse/MemeRepository.swift:6-72 | the curated dataset has five records |
| MemeRepository.CuratedIdentities | Memeiverse/MemeRepository.swift:6-72 | the ids are STONKS, DOGE, NYAN, RICKROLL, DISTRACTED, in that order and pairwise distinct; every record has a post URL; the dedup keys are distinct |
| MemeRepository.CuratedRecordsAreCurated | Memeiverse/MemeRepository.swift:6-72 | every classic comes from the curated source, is not trending and has no upvote count |
| MemeRepository.LoadCuratedMemes | Memeiverse/MemeRepository.swift:5-77 | unshuffled, the dataset in its written order; shuffled, a permutation of it; always five records |
| MemeRepository.CuratedSurviveDeduplication | Memeiverse/MemeRepository.swift:6-72 | deduplication with room for five keeps all five classics, in any order |
| Director.GameDirector.constructor | Memeiverse/GameDirector.swift:13-28 | a new controller is idle, holds no records and has not booted |
| Director.GameDirector.Settle | Memeiverse/GameDirector.swift:41-56 | a trending error leaves both lists and reports that error; a discovery error after a good trending fetch stores only `trending` and reports the discovery error; two good fetches store both lists; the state is then the empty-feeds failure when both are empty, loaded otherwise |
| Director.GameDirector.Refresh | Memeiverse/GameDirector.swift:38-57 | `curated` is a permutation of the five classics; the live lists and state are settled by the trending feed and by a result the discovery feed can return; the state ends loaded or failed; the boot flag is untouched |
| Director.GameDirector.Boot | Memeiverse/GameDirector.swift:30-36 | afterwards the controller is booted; a second boot changes nothing; a first boot performs a full refresh |
| Director.LiveListBounds | Memeiverse/GameDirector.swift:42-46 | a refresh stores at most 12 trending records, all flagged, ranked and with distinct keys, and at most 24 discoveries with distinct keys, drawn without repetition from the fetched records |
| Director.EmptyOnlyWhenNothingFetched | Memeiverse/GameDirector.swift:48-52 | a live list is empty only when its community fetch returned no records, so the empty-feeds failure means both fetches succeeded empty |

## Left out

- Network I/O: `URLSession.data(from:)` is a function from the request URL to its outcome. Timeouts, retries and caching are not modelled.
- JSON text and `JSONDecoder` internals: a body is described by what decoding finds in it. This covers whether the top level is an object, what `count` and `memes` hold, and whether the object decodes as one item. A decoding error's text is represented by an opaque string.
- `URL(string:)` and `String.capitalized` are opaque functions passed in as `Foundation`. The curated literals are taken to be well-formed URLs.
- Randomness: `shuffle()` and `shuffled()` may pick any permutation. The distribution is not modelled.
- Concurrency: several things are modelled as running one after another:
  - the two `async let` tasks in `refresh()`;
  - the `Task` that `boot()` starts;
  - the main-actor isolation.
- Interleaved or overlapping refreshes are not modelled, and neither is cancellation.
- The intermediate `loading` state is set, but only the settled state is specified.
- `Date` is whole seconds since 1970.
- The `UUID()` default for `id` is not modelled: every constructed record passes its `id`.
- `Int` is unbounded. Upvote counts and status codes do not wrap.
- Ranking.SortedByUpvotes: stated weaker than the executable sort, because it promises the order and the permutation but not how equal scores are arranged. Like Swift's `sorted(by:)`, the model's insertion sort is stable, so `FetchTrendingMemes` and `GameDirector.Refresh` keep equal scores in their fetched order. No contract states that stability.
- MemeFeedService.DedupKey: strings are compared character by character, as sequences of code points. Swift's `String` equality, and so the `Set<String>` of seen keys, uses Unicode canonical equivalence. Two URLs that differ only in normalisation, such as a precomposed "é" and "e" followed by a combining accent, are one key in Swift and two keys in the model. `Deduplicate` and the synthesised record equality inherit this difference.
- `MemeFeedService.init(session:)`, the `GameDirector` initializer's injected services, and everything outside the feed core are not part of this model. That includes the SwiftUI views, the SpriteKit scene, the compass and the HUD.
