/**
 * The sequential logic of the extension's background worker: the access-token
 * check, the login filter applied to a pull request's submitted reviews, the
 * reviewer-suggestion aggregation (merge into a deduplicating set, drop bots,
 * attach avatar URLs) with its cache in front, and the success check after a
 * review request.
 *
 * Every API response is an input. A per-item lookup that fails, whether by a
 * transport error, a non-2xx status or a missing field, is `Failed` and
 * contributes nothing, as in the source. The concurrent fan-out over the
 * search items is modelled as a sequential fold, and
 * `CandidatesOrderIndependent` shows that the order does not matter.
 */
module Background {
  import opened Wrappers
  import opened Text
  import opened Cache
  import opened GitHub

  /** The errors the worker's primary calls reject with. */
  datatype Error =
    | PatMissing                          // token not configured, or only whitespace
    | SearchApiError(status: int)         // the issue search answered with a non-2xx status
    | ReviewRequestApiError(status: int)  // the review request answered with a non-2xx status

  /** The outcome of one enrichment lookup: the parsed data, or a failure that is swallowed. */
  datatype Fetch<T> = Failed | Fetched(value: T)

  // ---------------------------------------------------------------------------
  // Access token

  /**
   * `getAuthToken`: the stored token with surrounding whitespace removed,
   * rejected when it is absent or nothing but whitespace.
   */
  function AuthToken(stored: Option<string>): (r: Result<string, Error>)
    ensures r.Failure? <==> stored.None? || AllWhitespace(stored.value)
    ensures r.Failure? ==> r.error == PatMissing
    ensures r.Success? ==> r.value != [] && !IsWhitespace(r.value[0]) && !IsWhitespace(r.value[|r.value| - 1])
    ensures r.Success? ==> |r.value| <= |stored.value|
    ensures r.Success? ==> r.value == Trim(stored.value)
  {
    match stored
    case None => Failure(PatMissing)
    case Some(pat) =>
      var token := Trim(pat);
      if token != [] then Success(token) else Failure(PatMissing)
  }

  /**
   * A token saved by the options page, which trims before saving, is accepted
   * unchanged, and trimming there does not change which tokens the worker accepts.
   */
  lemma AuthTokenOfSavedToken(typed: string)
    ensures AuthToken(Some(Trim(typed))) == AuthToken(Some(typed))
    ensures Trim(typed) != [] ==> AuthToken(Some(Trim(typed))) == Success(Trim(typed))
  {
    TrimIdempotent(typed);
  }

  // ---------------------------------------------------------------------------
  // fetchSubmittedReviews

  /** The filter applied to each review's login: present, not the author's, not a bot. */
  predicate KeepSubmittedLogin(login: string, prAuthor: Option<string>) {
    login != "" && prAuthor != Some(login) && !IsBot(login)
  }

  /**
   * The logins of the reviews' authors that pass `KeepSubmittedLogin`, in review
   * order, repeated once per review. A review without a user contributes nothing;
   * `prAuthor` is absent when the pull request's details carry no user.
   */
  function SubmittedLogins(reviews: seq<Review>, prAuthor: Option<string>): (r: seq<string>)
    ensures |r| <= |reviews|
    ensures forall l :: l in r <==>
      KeepSubmittedLogin(l, prAuthor) && exists k :: 0 <= k < |reviews| && reviews[k].user == Some(User(l))
  {
    if reviews == [] then []
    else
      var rest := SubmittedLogins(reviews[1..], prAuthor);
      assert forall k :: 0 < k < |reviews| ==> reviews[k] == reviews[1..][k - 1];
      match reviews[0].user
      case Some(u) => if KeepSubmittedLogin(u.login, prAuthor) then [u.login] + rest else rest
      case None => rest
  }

  /**
   * `fetchSubmittedReviews`: every failure (of the reviews lookup or of the
   * pull-request details it consults for the author) degrades to no logins;
   * when both lookups succeed, every review login that passes the filter is
   * returned and no other.
   */
  function FetchSubmittedReviews(reviews: Fetch<seq<Review>>, prAuthor: Fetch<Option<string>>): (r: seq<string>)
    ensures r != [] ==> reviews.Fetched? && prAuthor.Fetched?
    ensures forall l :: l in r ==> KeepSubmittedLogin(l, prAuthor.value)
    ensures reviews.Fetched? && prAuthor.Fetched? ==>
      forall l :: l in r <==>
        KeepSubmittedLogin(l, prAuthor.value) &&
        exists k :: 0 <= k < |reviews.value| && reviews.value[k].user == Some(User(l))
  {
    match reviews
    case Failed => []
    case Fetched(rs) =>
      match prAuthor
      case Failed => []
      case Fetched(author) => SubmittedLogins(rs, author)
  }

  // ---------------------------------------------------------------------------
  // fetchRecentReviewersViaSearch

  /**
   * One item of the issue search with the results of its two lookups;
   * `hasPullRequest` says whether the item carries a `pull_request` field.
   */
  datatype SearchItem = SearchItem(
    number: nat,
    hasPullRequest: bool,
    requestedReviewers: Fetch<seq<User>>,
    submittedReviews: Fetch<seq<Review>>)

  /** The issue search: a non-2xx status, or the items (an absent `items` field is the empty list). */
  datatype SearchResponse = SearchFailed(status: int) | SearchOk(items: seq<SearchItem>)

  /** Logins the requested-reviewers lookup contributes: every user but the author. */
  function RequestedLogins(author: string, users: seq<User>): (r: set<string>)
    ensures forall l :: l in r <==> l != author && exists k :: 0 <= k < |users| && users[k].login == l
  {
    if users == [] then {}
    else
      var u := users[|users| - 1];
      var front := users[..|users| - 1];
      assert forall k :: 0 <= k < |front| ==> front[k] == users[k];
      RequestedLogins(author, front) + (if u.login != author then {u.login} else {})
  }

  /** Logins the submitted-reviews lookup contributes: every review's user but the author. */
  function ReviewLogins(author: string, reviews: seq<Review>): (r: set<string>)
    ensures forall l :: l in r <==> l != author && exists k :: 0 <= k < |reviews| && reviews[k].user == Some(User(l))
  {
    if reviews == [] then {}
    else
      var v := reviews[|reviews| - 1];
      var front := reviews[..|reviews| - 1];
      assert forall k :: 0 <= k < |front| ==> front[k] == reviews[k];
      ReviewLogins(author, front) + (if v.user.Some? && v.user.value.login != author then {v.user.value.login} else {})
  }

  /** Everything one search item contributes; an item that is not a pull request contributes nothing. */
  function ItemLogins(author: string, item: SearchItem): (r: set<string>)
    ensures forall l :: l in r <==> l != author && Contributes(item, l)
  {
    if !item.hasPullRequest then {}
    else
      (match item.requestedReviewers
       case Fetched(users) => RequestedLogins(author, users)
       case Failed => {})
      + (match item.submittedReviews
         case Fetched(reviews) => ReviewLogins(author, reviews)
         case Failed => {})
  }

  /** `login` was requested on, or reviewed, a search item that is a pull request. */
  predicate Contributes(item: SearchItem, login: string) {
    && item.hasPullRequest
    && (|| (item.requestedReviewers.Fetched? &&
            exists k :: 0 <= k < |item.requestedReviewers.value| && item.requestedReviewers.value[k].login == login)
        || (item.submittedReviews.Fetched? &&
            exists k :: 0 <= k < |item.submittedReviews.value| && item.submittedReviews.value[k].user == Some(User(login))))
  }

  /**
   * The set of logins the fan-out gathers: those contributed by some pull
   * request among the items, the author excepted.
   */
  function Candidates(author: string, items: seq<SearchItem>): (r: set<string>)
    ensures forall l :: l in r <==> l != author && exists i :: 0 <= i < |items| && Contributes(items[i], l)
  {
    if items == [] then {}
    else
      var front := items[..|items| - 1];
      assert forall i :: 0 <= i < |front| ==> front[i] == items[i];
      Candidates(author, front) + ItemLogins(author, items[|items| - 1])
  }

  /** `Set.prototype.add` on a set kept in insertion order. */
  function Insert(logins: seq<string>, login: string): seq<string> {
    if login in logins then logins else logins + [login]
  }

  /** The `d.users.forEach` of one requested-reviewers lookup. */
  method AddRequestedReviewers(logins: seq<string>, author: string, users: seq<User>) returns (result: seq<string>)
    requires NoDuplicates(logins)
    ensures NoDuplicates(result)
    ensures forall l :: l in result <==> l in logins || l in RequestedLogins(author, users)
  {
    result := logins;
    var j := 0;
    while j < |users|
      invariant 0 <= j <= |users|
      invariant NoDuplicates(result)
      invariant forall l :: l in result <==> l in logins || l in RequestedLogins(author, users[..j])
    {
      var u := users[j];
      if u.login != author {
        result := Insert(result, u.login);
      }
      assert users[..j + 1][..j] == users[..j];
      j := j + 1;
    }
    assert users[..|users|] == users;
  }

  /** The `d.forEach` of one submitted-reviews lookup. */
  method AddSubmittedReviewers(logins: seq<string>, author: string, reviews: seq<Review>) returns (result: seq<string>)
    requires NoDuplicates(logins)
    ensures NoDuplicates(result)
    ensures forall l :: l in result <==> l in logins || l in ReviewLogins(author, reviews)
  {
    result := logins;
    var j := 0;
    while j < |reviews|
      invariant 0 <= j <= |reviews|
      invariant NoDuplicates(result)
      invariant forall l :: l in result <==> l in logins || l in ReviewLogins(author, reviews[..j])
    {
      var r := reviews[j];
      if r.user.Some? && r.user.value.login != author {
        result := Insert(result, r.user.value.login);
      }
      assert reviews[..j + 1][..j] == reviews[..j];
      j := j + 1;
    }
    assert reviews[..|reviews|] == reviews;
  }

  /**
   * The fan-out over the search items, folded in item order into the
   * deduplicating `reviewerLogins` set: each login gathered appears exactly once,
   * and the logins gathered are exactly the candidates.
   */
  method MergeReviewerLogins(author: string, items: seq<SearchItem>) returns (logins: seq<string>)
    ensures NoDuplicates(logins)
    ensures forall l :: l in logins <==> l in Candidates(author, items)
  {
    logins := [];
    ghost var gathered: set<string> := {};
    var i := 0;
    while i < |items|
      invariant 0 <= i <= |items|
      invariant NoDuplicates(logins)
      invariant gathered == Candidates(author, items[..i])
      invariant forall l :: l in logins <==> l in gathered
    {
      var prItem := items[i];
      ghost var contributed := ItemLogins(author, prItem);
      if prItem.hasPullRequest {
        match prItem.requestedReviewers {
          case Fetched(users) => logins := AddRequestedReviewers(logins, author, users);
          case Failed =>
        }
        match prItem.submittedReviews {
          case Fetched(reviews) => logins := AddSubmittedReviewers(logins, author, reviews);
          case Failed =>
        }
      }
      CandidatesSnoc(author, items, i);
      gathered := gathered + contributed;
      i := i + 1;
    }
    assert items[..|items|] == items;
  }

  /** Folding one more item adds exactly what that item contributes. */
  lemma CandidatesSnoc(author: string, items: seq<SearchItem>, i: nat)
    requires i < |items|
    ensures Candidates(author, items[..i + 1]) == Candidates(author, items[..i]) + ItemLogins(author, items[i])
  {
    assert items[..i + 1][..i] == items[..i];
  }

  /** The bot filter: keeps, in order, the logins that do not end in the bot suffix. */
  function WithoutBots(logins: seq<string>): (r: seq<string>)
    ensures |r| <= |logins|
    ensures forall l :: l in r <==> l in logins && !IsBot(l)
    ensures NoDuplicates(logins) ==> NoDuplicates(r)
  {
    if logins == [] then []
    else
      var rest := WithoutBots(logins[1..]);
      assert NoDuplicates(logins) ==> NoDuplicates(logins[1..]) && logins[0] !in logins[1..];
      if IsBot(logins[0]) then rest else [logins[0]] + rest
  }

  /** The avatar `map`: one suggestion per login, in order. */
  function Decorate(logins: seq<string>): (rs: seq<Reviewer>)
    ensures LoginsOf(rs) == logins
    ensures forall k :: 0 <= k < |rs| ==> rs[k].avatar_url == AvatarUrl(rs[k].login)
  {
    seq(|logins|, k requires 0 <= k < |logins| => Reviewer(logins[k], AvatarUrl(logins[k])))
  }

  /**
   * What a suggestion list for `author` over `items` is: one record per login,
   * each with its avatar URL, whose logins are exactly the candidates that are
   * not bots. The order is not part of it.
   */
  ghost predicate IsSuggestionList(rs: seq<Reviewer>, author: string, items: seq<SearchItem>) {
    && NoDuplicates(LoginsOf(rs))
    && (forall k :: 0 <= k < |rs| ==> rs[k].avatar_url == AvatarUrl(rs[k].login))
    && (forall l :: l in LoginsOf(rs) <==> l in Candidates(author, items) && !IsBot(l))
  }

  /** Merge, drop bots, attach avatars: the suggestions computed from the search items. */
  method SuggestReviewers(author: string, items: seq<SearchItem>) returns (rs: seq<Reviewer>)
    ensures IsSuggestionList(rs, author, items)
  {
    var reviewerLogins := MergeReviewerLogins(author, items);
    var withoutBots := WithoutBots(reviewerLogins);
    rs := Decorate(withoutBots);
  }

  /**
   * Every suggestion is neither the author nor a bot, carries its avatar URL,
   * and was requested on or reviewed a pull request among the items.
   */
  lemma SuggestionsExcludeAuthorAndBots(rs: seq<Reviewer>, author: string, items: seq<SearchItem>, k: nat)
    requires IsSuggestionList(rs, author, items)
    requires k < |rs|
    ensures rs[k].login != author && !IsBot(rs[k].login)
    ensures rs[k].avatar_url == "https://github.com/" + rs[k].login + ".png?size=40"
    ensures exists i :: 0 <= i < |items| && Contributes(items[i], rs[k].login)
  {
    assert LoginsOf(rs)[k] == rs[k].login;
    assert rs[k].login in LoginsOf(rs);
  }

  /** If every item of `a` is also an item of `b`, everything `a` contributes `b` contributes too. */
  lemma CandidatesMonotone(author: string, a: seq<SearchItem>, b: seq<SearchItem>)
    requires forall x :: x in a ==> x in b
    ensures Candidates(author, a) <= Candidates(author, b)
  {
    forall l | l in Candidates(author, a) ensures l in Candidates(author, b) {
      var i :| 0 <= i < |a| && Contributes(a[i], l);
      assert a[i] in b;
      var j :| 0 <= j < |b| && b[j] == a[i];
      assert Contributes(b[j], l);
    }
  }

  /**
   * The candidates do not depend on the order in which the concurrent lookups
   * complete: any reordering of the items gathers the same set.
   */
  lemma CandidatesOrderIndependent(author: string, items: seq<SearchItem>, reordered: seq<SearchItem>)
    requires multiset(items) == multiset(reordered)
    ensures Candidates(author, items) == Candidates(author, reordered)
  {
    forall x | x in items ensures x in reordered {
      assert x in multiset(items);
    }
    forall x | x in reordered ensures x in items {
      assert x in multiset(reordered);
    }
    CandidatesMonotone(author, items, reordered);
    CandidatesMonotone(author, reordered, items);
  }

  /**
   * Best effort: when the lookups of item `i` fail (or it is not a pull
   * request), the logins contributed by the other items are still all gathered.
   */
  lemma FailedLookupKeepsOthers(author: string, items: seq<SearchItem>, i: nat, degraded: SearchItem)
    requires i < |items|
    ensures Candidates(author, items[..i] + items[i + 1..]) <= Candidates(author, items[i := degraded])
  {
    var others := items[..i] + items[i + 1..];
    forall x | x in others ensures x in items[i := degraded] {
      var j :| 0 <= j < |others| && others[j] == x;
      if j < i {
        assert items[i := degraded][j] == x;
      } else {
        assert items[i := degraded][j + 1] == x;
      }
    }
    CandidatesMonotone(author, others, items[i := degraded]);
  }

  /**
   * A worked example: the author's two merged pull requests; "alice" was
   * requested on the first, "bob" and "alice[bot]" reviewed the second. The
   * suggestions are exactly alice and bob; the bot is dropped.
   */
  lemma TwoPullRequestsExample(rs: seq<Reviewer>)
    requires IsSuggestionList(rs, "carol", [
      SearchItem(1, true, Fetched([User("alice")]), Fetched([])),
      SearchItem(2, true, Fetched([]), Fetched([Review(Some(User("bob"))), Review(Some(User("alice[bot]")))]))])
    ensures forall l :: l in LoginsOf(rs) <==> l == "alice" || l == "bob"
  {
    ExampleCandidates();
    assert "alice[bot]"[5..] == "[bot]";
  }

  /** The two pull requests of the example, opened by "carol". */
  function ExampleItems(): seq<SearchItem> {
    [ SearchItem(1, true, Fetched([User("alice")]), Fetched([])),
      SearchItem(2, true, Fetched([]), Fetched([Review(Some(User("bob"))), Review(Some(User("alice[bot]")))]))]
  }

  /** The logins the example gathers before bots are dropped. */
  lemma ExampleCandidates()
    ensures forall l :: l in Candidates("carol", ExampleItems()) <==> l == "alice" || l == "bob" || l == "alice[bot]"
  {
    ExampleContributors();
    forall l | l in Candidates("carol", ExampleItems()) ensures l == "alice" || l == "bob" || l == "alice[bot]" {
      ExampleOnlyContributors(l);
    }
  }

  lemma ExampleContributors()
    ensures Contributes(ExampleItems()[0], "alice")
    ensures Contributes(ExampleItems()[1], "bob") && Contributes(ExampleItems()[1], "alice[bot]")
  {
    var items := ExampleItems();
    assert items[0].requestedReviewers.value[0].login == "alice";
    assert items[1].submittedReviews.value[0].user == Some(User("bob"));
    assert items[1].submittedReviews.value[1].user == Some(User("alice[bot]"));
  }

  lemma ExampleOnlyContributors(l: string)
    requires exists i :: 0 <= i < |ExampleItems()| && Contributes(ExampleItems()[i], l)
    ensures l == "alice" || l == "bob" || l == "alice[bot]"
  {
    var items := ExampleItems();
    var i :| 0 <= i < |items| && Contributes(items[i], l);
  }

  /** The cache key of the suggestions for `author` in `owner/repo`. */
  function SuggestionsCacheKey(owner: string, repo: string, author: string): string {
    "suggestions_" + owner + "_" + repo + "_" + author
  }

  /**
   * `fetchRecentReviewersViaSearch`. A missing token rejects before anything
   * else. A fresh cached list is returned as it is. Otherwise a failed search
   * rejects; a successful one yields the suggestions, which are cached for
   * fifteen minutes. `readTime` and `writeTime` are the two readings of the
   * clock, at the cache read and at the cache write.
   */
  method FetchRecentReviewersViaSearch(
    cache: ExpiringCache<seq<Reviewer>>, storedPat: Option<string>,
    owner: string, repo: string, author: string,
    search: SearchResponse, readTime: nat, writeTime: nat)
    returns (r: Result<seq<Reviewer>, Error>)
    modifies cache
    ensures AuthToken(storedPat).Failure? ==> r == Failure(PatMissing) && cache.store == old(cache.store)
    ensures AuthToken(storedPat).Success? ==>
      var key := SuggestionsCacheKey(owner, repo, author);
      var cached := Read(old(cache.store), key, readTime);
      var evicted := AfterRead(old(cache.store), key, readTime);
      if cached.Some? then
        r == Success(cached.value) && cache.store == old(cache.store)
      else
        match search
        case SearchFailed(status) =>
          r == Failure(SearchApiError(status)) && cache.store == evicted
        case SearchOk(items) =>
          && r.Success? && IsSuggestionList(r.value, author, items)
          && cache.store == Write(evicted, key, r.value, SuggestionsTtlMinutes, writeTime)
  {
    var token := AuthToken(storedPat);
    if token.Failure? {
      return Failure(token.error);
    }
    var cacheKey := SuggestionsCacheKey(owner, repo, author);
    var cachedData := cache.Get(cacheKey, readTime);
    if cachedData.Some? {
      return Success(cachedData.value);
    }
    match search {
      case SearchFailed(status) =>
        return Failure(SearchApiError(status));
      case SearchOk(items) =>
        if items == [] {
          cache.Set(cacheKey, [], SuggestionsTtlMinutes, writeTime);
          return Success([]);
        }
        var suggestedReviewers := SuggestReviewers(author, items);
        cache.Set(cacheKey, suggestedReviewers, SuggestionsTtlMinutes, writeTime);
        return Success(suggestedReviewers);
    }
  }

  // ---------------------------------------------------------------------------
  // postReviewRequest

  /** The answer to the review request: a non-2xx status, or the updated pull request's `requested_reviewers`. */
  datatype PostResponse = PostFailed(status: int) | PostOk(requestedReviewers: Option<seq<User>>)

  /** The `{success, error}` object sent back to the page. */
  datatype RequestOutcome = RequestOutcome(success: bool, error: Option<string>)

  const ReviewerNotFound: string := "Reviewer not found in updated list post-request."

  /**
   * `postReviewRequest` after the request was sent: it succeeds only if the
   * requested login is listed among the pull request's requested reviewers.
   */
  function PostReviewRequest(storedPat: Option<string>, reviewerLogin: string, response: PostResponse): (r: Result<RequestOutcome, Error>)
    ensures AuthToken(storedPat).Failure? ==> r == Failure(PatMissing)
    ensures AuthToken(storedPat).Success? && response.PostFailed? ==> r == Failure(ReviewRequestApiError(response.status))
    ensures r.Success? <==> AuthToken(storedPat).Success? && response.PostOk?
    ensures r.Success? ==>
      (r.value.success <==>
        && response.requestedReviewers.Some?
        && exists k :: 0 <= k < |response.requestedReviewers.value| && response.requestedReviewers.value[k].login == reviewerLogin)
    ensures r.Success? ==> r.value.error == if r.value.success then None else Some(ReviewerNotFound)
  {
    var token := AuthToken(storedPat);
    if token.Failure? then Failure(token.error)
    else
      match response
      case PostFailed(status) => Failure(ReviewRequestApiError(status))
      case PostOk(requested) =>
        var isRequested := requested.Some? && HasLogin(requested.value, reviewerLogin);
        if isRequested then Success(RequestOutcome(true, None))
        else Success(RequestOutcome(false, Some(ReviewerNotFound)))
  }
}
