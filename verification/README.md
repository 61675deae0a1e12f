# Reviewer Recommender: a verified model of its core logic

The Reviewer Recommender is a browser extension for a code-hosting site. On a
pull-request page it suggests reviewers drawn from the author's recent merged
pull requests, and it lets the author request a review with one click. Most of
the extension is network and DOM glue. This Dafny project models the
sequential logic underneath that glue and proves properties about it.

- **Expiring cache** (`cache.dfy`, module `Cache`). `getFromCache` and
  `setToCache` are modelled as a class over a storage map from string keys to
  `{data, expiration}` entries. The class methods are proved against pure
  functions `Read`, `AfterRead` and `Write`. A read serves data only while
  `expiration > now`. Reading an expired entry deletes it. A write stores
  `expiration = now + ttl * 60000`.
- **Background worker** (`background.dfy`, module `Background`):
  - the access-token check of `getAuthToken`: trim the token, reject it if empty;
  - the login filter of `fetchSubmittedReviews`;
  - the suggestion aggregation of `fetchRecentReviewersViaSearch`. The lookups
    are folded into an insertion-ordered deduplicating set, bots are dropped and
    avatar URLs attached, with the cache in front of it all;
  - the success check of `postReviewRequest`.
- **Page script** (`content.dfy`, module `Content`):
  - `getRepoInfo` path parsing;
  - the per-reviewer button state and the other decisions of
    `displayReviewerSuggestions`;
  - the dispatch on the worker's answer;
  - the `isMainLogicRunning` guard of `main`, as a `PageController` class.
- **Support**:
  - `text.dfy`: JavaScript `trim`, `endsWith`, `includes` and `split`, with
    `Join` as the inverse of `split`;
  - `github.dfy`: the user, review and reviewer records;
  - `wrappers.dfy`: `Option` and `Result`.

API responses, the clock and the page's DOM state are parameters. A
per-pull-request lookup that fails, by a transport error, a non-2xx status or
a missing field, is the value `Failed`. Such a lookup contributes nothing,
just as the source swallows it.

A worked example shows what the filters keep. The author is "carol". Pull
request 1 requested "alice"; pull request 2 was reviewed by "bob" and
"alice[bot]". The aggregation drops only the author's login and logins ending
in "[bot]" (background.js:301, 327-328 and 343-345), so both alice and bob remain.
`Background.TwoPullRequestsExample` proves that the suggestions are exactly
alice and bob.

## Model

| member | source | states |
|---|---|---|
| `Cache.ExpiringCache.Get` | background.js:35-51 | returns `Read` of the old store and leaves `AfterRead` of it: the data while the entry's expiration is later than now, else nothing with an expired entry removed |
| `Cache.ExpiringCache.Set` | background.js:53-60 | the entry under the key becomes `{data, now + ttl*60000}`; reads of every other key are unchanged |
| `Cache.ReadServesOnlyFresh` | background.js:38-41 | a read returns data exactly when the key is present and its expiration is strictly greater than now, and then it returns the stored data |
| `Cache.ReadEvictsOnlyExpired` | background.js:40-44 | reading an entry whose expiration is at or before now removes exactly that key; otherwise the store is unchanged; no other entry ever changes |
| `Cache.ReadWithinTtl` | background.js:53-56 | after a write at t with ttl minutes, the entry is `{d, t + ttl*60000}`, and a read at any earlier time returns d and changes nothing |
| `Cache.ReadAfterTtl` | background.js:40-44 | once the ttl has elapsed, a read returns nothing and the written entry is gone |
| `Cache.WriteFrame` | background.js:56 | a write under one key changes no read of another key |
| `Cache.EvictionUnobservable` | background.js:42-45 | lazy eviction cannot be observed: after a read at now, every read at now or later returns what it would have without the eviction |
| `Cache.ReadIdempotent` | background.js:35-51 | repeating a read at the same time returns the same value and evicts nothing more |
| `Text.Trim` | background.js:22-23 | the trimmed string is empty exactly when the input is all whitespace; otherwise it neither starts nor ends with whitespace |
| `Text.TrimIsMiddle` | background.js:22-23 | the trimmed string is the middle part left between a whitespace prefix and a whitespace suffix, which pins the result down uniquely |
| `Text.TrimIdempotent` | options.js:14 | trimming twice equals trimming once |
| `Text.Split` | content.js:13 | splitting on "/" gives at least one piece, no piece contains "/", and joining the pieces with "/" restores the path |
| `Text.SplitJoin` | content.js:13 | joining "/"-free pieces with "/" and splitting again gives back the same pieces |
| `GitHub.HasLogin` | background.js:373-375 | `.some(r => r.login === login)` holds exactly when some listed user has that login |
| `Background.AuthToken` | background.js:22-29 | rejects with PatMissing exactly when the token is absent or all whitespace; an accepted token is the trim of the stored one: non-empty, no longer than it, and with no whitespace at either end |
| `Background.AuthTokenOfSavedToken` | options.js:14-16 | a token the options page saved after trimming is accepted unchanged; trimming before saving does not change acceptance |
| `Background.SubmittedLogins` | background.js:114-119 | keeps at most one login per review; a login is kept exactly when some review's user has it and it is non-empty, not the PR author's and not a bot |
| `Background.FetchSubmittedReviews` | background.js:90-129 | a failed reviews lookup or failed PR-details lookup gives no logins; when both succeed, a login is returned exactly when some review's user has it and it passes the filter (non-empty, not the author's, not a bot) |
| `Background.RequestedLogins` | background.js:299-302 | the requested-reviewers lookup adds exactly the listed users' logins other than the author's |
| `Background.ReviewLogins` | background.js:325-329 | the submitted-reviews lookup adds exactly the logins of reviews that have a user, other than the author's |
| `Background.ItemLogins` | background.js:285-341 | an item that is not a pull request contributes nothing; a pull request contributes exactly the non-author logins its lookups that succeeded requested or saw review |
| `Background.Candidates` | background.js:283-342 | a login is gathered exactly when it is not the author and some search item with a `pull_request` field requested or was reviewed by it |
| `Background.AddRequestedReviewers` | background.js:299-302 | the loop keeps the set duplicate-free and afterwards holds the old logins plus the requested logins |
| `Background.AddSubmittedReviewers` | background.js:325-329 | the loop keeps the set duplicate-free and afterwards holds the old logins plus the reviewers' logins |
| `Background.MergeReviewerLogins` | background.js:283-342 | the fold over all items yields each gathered login exactly once, and exactly the candidates |
| `Background.WithoutBots` | background.js:344-346 | keeps exactly the logins not ending in "[bot]", never adds one, and keeps the list duplicate-free |
| `Background.Decorate` | background.js:347-350 | one record per login, in order, with `avatar_url == "https://github.com/" + login + ".png?size=40"` |
| `Background.SuggestReviewers` | background.js:283-350 | the result is a suggestion list: no duplicate logins, every avatar URL fixed by its login, and its logins exactly the non-bot candidates |
| `Background.SuggestionsExcludeAuthorAndBots` | background.js:283-350 | no suggestion is the author or a bot; each has its avatar URL and came from a pull request among the items |
| `Background.CandidatesMonotone` | background.js:284-342 | more search items never gather fewer logins |
| `Background.CandidatesOrderIndependent` | background.js:284-342 | any reordering of the items, as the concurrent lookups may complete, gathers the same set |
| `Background.FailedLookupKeepsOthers` | background.js:303-313 | if one item's lookups fail, all logins contributed by the other items are still gathered |
| `Background.TwoPullRequestsExample` | background.js:283-350 | for the two-pull-request example, the suggestions are exactly alice and bob |
| `Background.FetchRecentReviewersViaSearch` | background.js:248-354 | a missing token rejects and leaves the cache alone; a fresh cached list is returned unchanged; otherwise a failed search rejects, with only the expired entry evicted; a successful search returns a suggestion list and caches it for 15 minutes at the write time |
| `Background.PostReviewRequest` | background.js:356-396 | a missing token or a non-2xx status rejects; otherwise success is true exactly when the login is among `requested_reviewers`; on false the error is "Reviewer not found in updated list post-request." |
| `Content.GetRepoInfo` | content.js:12-21 | owner, repository and number never contain "/" |
| `Content.RepoInfoOfPullPath` | content.js:13-15 | a path of at least five "/"-free pieces whose piece 3 is "pull" gives owner = piece 1, repo = piece 2, prNumber = piece 4 |
| `Content.RepoInfoRejects` | content.js:14-20 | a path of fewer than five pieces, or whose piece 3 is not "pull", gives nothing |
| `Content.RepoInfoComesFromPath` | content.js:12-16 | an accepted path splits into at least five pieces with "pull" at index 3; it is those pieces joined back, and the result's fields are pieces 1, 2 and 4 |
| `Content.RepoInfoExample` | content.js:12-16 | "/octo/hi/pull/7/files" gives octo, hi, 7 |
| `Content.ButtonFor` | content.js:132-152 | the button reads "Requested" exactly when the login is among the current requested reviewers, "Reviewed" exactly when it is not but has submitted a review, and is disabled exactly when it does not read "Request" |
| `Content.Render` | content.js:64-222 | a message replaces the list; a non-empty list shows one button per reviewer, in order, and "Request All" only for more than one; an empty list shows "No recent reviewers found." |
| `Content.Dispatch` | content.js:260-304 | fixed priority: channel error, then `error`, then `suggestionsApplicable === false`, then a non-empty or an empty `reviewers`, otherwise "Could not load suggestions."; only the non-empty case passes reviewers without a message |
| `Content.ListShownExactlyForSuggestions` | content.js:272-295 | the reviewer list is shown exactly for an answer with no error, not marked inapplicable, and a non-empty `reviewers`; its buttons follow that list, and "Request All" appears only for several |
| `Content.ErrorTakesPriority` | content.js:272-274 | an answer carrying an error shows "Error: " + error, whatever else it holds |
| `Content.MainDecision` | content.js:233-321 | a request is sent exactly when the URL contains "/pull/", a user is logged in, the path gives non-empty owner, repo and number, and the sidebar exists; the request carries those values; without "/pull/" the container is removed |
| `Content.PageController.RunMainLogic` | content.js:227-322 | while the flag is set, nothing happens; otherwise the flag is taken and kept only when the request is sent, so at most one request is ever in flight |
| `Content.PageController.OnSuggestionReply` | content.js:259-305 | shows what `Dispatch` chooses and always releases the flag |

## Left out

- The `fetch` calls, HTTP status handling, JSON parsing and API URL building. Their results are inputs: `SearchResponse`, `Fetch`, `PostResponse`.
- The search's `per_page=5` bound (RECENT_PRS_COUNT). The model accepts any number of search items; the bound belongs to the remote API.
- `fetchPrDetails` and its `pr_details_` cache entry. It is the same cache read and write pattern shown for suggestions. `FetchSubmittedReviews` takes only the author login it yields, as a `Fetch`.
- The `chrome.runtime.onMessage` listener. This covers its parameter checks and the `getPrDetailsAndSuggestIfOwnPR` and `getRecentReviewers` handlers with the `suggestions_direct_` cache key. The handlers only compose the modelled operations, and the message channel is a foreign API.
- `chrome.storage` failures. The catch blocks of `getFromCache` and `setToCache`, and `getAuthToken`'s `lastError` rejection, are not modelled. Storage is a map that always answers.
- The install hook (`onInstalled`, `openOptionsPage`) and the options page form. The trim that options.js applies before saving appears only in `Background.AuthTokenOfSavedToken`.
- `Date.now()`. The clock is a parameter; times are unbounded naturals, and JavaScript number precision is not modelled.
- The DOM, `getLoggedInUser` (a parameter), the `MutationObserver`, the debounce and revert timers, the button click handlers (including "Request All"), `alert` and console logging.
- Concurrency. `Promise.all` over the search items is a sequential fold. `Background.CandidatesOrderIndependent` shows the gathered set does not depend on the order.
- Error messages that embed an HTTP status. They are modelled as `Error` constructors carrying the status; the message strings are not built.
- Cached data is one generic type per cache object. The source's single store holds PR details and suggestion lists under disjoint key prefixes.
- Background.FetchRecentReviewersViaSearch: does not fix the order of the suggestions, because the source's order depends on when the concurrent lookups complete. Only membership, uniqueness and avatar URLs are stated.
