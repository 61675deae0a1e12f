/**
 * The decisions of the extension's page script: reading the repository and
 * pull-request number from the page path, choosing each suggestion's button
 * state, choosing what to show for the worker's answer, and the
 * `isMainLogicRunning` guard that lets only one suggestion request be in
 * flight at a time. The DOM itself, the timers and the message channel are
 * not modelled; what the script would render is returned as a value.
 */
module Content {
  import opened Wrappers
  import opened Text
  import opened GitHub

  /** A JavaScript string used as a condition: `null`, `undefined` and `""` are false. */
  predicate Truthy(s: Option<string>) {
    s.Some? && s.value != ""
  }

  // ---------------------------------------------------------------------------
  // getRepoInfo

  datatype RepoInfo = RepoInfo(owner: string, repo: string, prNumber: string)

  /**
   * `getRepoInfo`: splits the path on "/" and accepts it when there are at
   * least five pieces and the fourth (index 3) is "pull".
   */
  function GetRepoInfo(pathname: string): (r: Option<RepoInfo>)
    ensures r.Some? ==> '/' !in r.value.owner && '/' !in r.value.repo && '/' !in r.value.prNumber
  {
    var pathParts := Split(pathname, '/');
    if |pathParts| >= 5 && pathParts[3] == "pull" then
      Some(RepoInfo(pathParts[1], pathParts[2], pathParts[4]))
    else
      None
  }

  /**
   * A path made of at least five "/"-free pieces whose fourth is "pull" yields
   * owner, repository and number from the second, third and fifth pieces,
   * whatever follows them ("/files", "/commits", ...).
   */
  lemma RepoInfoOfPullPath(parts: seq<string>)
    requires |parts| >= 5 && parts[3] == "pull"
    requires forall k :: 0 <= k < |parts| ==> '/' !in parts[k]
    ensures GetRepoInfo(Join(parts, '/')) == Some(RepoInfo(parts[1], parts[2], parts[4]))
  {
    SplitJoin(parts, '/');
  }

  /** A path of fewer than five pieces, or whose fourth piece is not "pull", yields nothing. */
  lemma RepoInfoRejects(parts: seq<string>)
    requires |parts| >= 1
    requires forall k :: 0 <= k < |parts| ==> '/' !in parts[k]
    requires |parts| < 5 || parts[3] != "pull"
    ensures GetRepoInfo(Join(parts, '/')) == None
  {
    SplitJoin(parts, '/');
  }

  /** Every accepted path is the pieces it was read from, joined back with "/". */
  lemma RepoInfoComesFromPath(pathname: string)
    requires GetRepoInfo(pathname).Some?
    ensures var info := GetRepoInfo(pathname).value;
            var parts := Split(pathname, '/');
            |parts| >= 5 && parts[3] == "pull" && pathname == Join(parts, '/')
            && parts[1] == info.owner && parts[2] == info.repo && parts[4] == info.prNumber
  {
  }

  // ---------------------------------------------------------------------------
  // displayReviewerSuggestions

  datatype Label = RequestLabel | RequestedLabel | ReviewedLabel

  /** The text shown on a button with this label. */
  function LabelText(kind: Label): string {
    match kind
    case RequestLabel => "Request"
    case RequestedLabel => "Requested"
    case ReviewedLabel => "Reviewed"
  }

  /** The per-reviewer button: its login, label and whether it is disabled. */
  datatype Button = Button(login: string, caption: Label, disabled: bool)

  /**
   * The button state of one suggestion: "Requested" and disabled when the login
   * is among the current requested reviewers, which wins over "Reviewed" and
   * disabled when it already submitted a review; otherwise an enabled "Request".
   */
  function ButtonFor(login: string, currentRequested: seq<User>, submitted: seq<string>): (b: Button)
    ensures b.login == login
    ensures LabelText(b.caption) == "Requested" <==> exists k :: 0 <= k < |currentRequested| && currentRequested[k].login == login
    ensures LabelText(b.caption) == "Reviewed" <==>
      (forall k :: 0 <= k < |currentRequested| ==> currentRequested[k].login != login) && login in submitted
    ensures b.disabled <==> LabelText(b.caption) != "Request"
  {
    var isAlreadyRequested := HasLogin(currentRequested, login);
    var hasAlreadyReviewed := login in submitted;
    if isAlreadyRequested then Button(login, RequestedLabel, true)
    else if hasAlreadyReviewed then Button(login, ReviewedLabel, true)
    else Button(login, RequestLabel, false)
  }

  const NoRecentReviewers: string := "No recent reviewers found."

  /** What the suggestions container shows: a message paragraph, or the list of reviewers. */
  datatype Panel =
    | MessagePanel(text: string)
    | ReviewerList(requestAll: bool, buttons: seq<Button>)

  /**
   * `displayReviewerSuggestions` once the sidebar is found: a message, when
   * given, replaces the list; a non-empty list shows one button per reviewer,
   * in order, and a "Request All" button only when there is more than one;
   * an empty list shows "No recent reviewers found.".
   */
  function Render(reviewers: seq<Reviewer>, message: Option<string>, currentRequested: seq<User>, submitted: seq<string>): (p: Panel)
    ensures Truthy(message) ==> p == MessagePanel(message.value)
    ensures !Truthy(message) && reviewers == [] ==> p == MessagePanel(NoRecentReviewers)
    ensures p.ReviewerList? <==> !Truthy(message) && |reviewers| > 0
    ensures p.ReviewerList? ==> (p.requestAll <==> |reviewers| > 1)
    ensures p.ReviewerList? ==> |p.buttons| == |reviewers|
    ensures p.ReviewerList? ==>
      forall k :: 0 <= k < |reviewers| ==> p.buttons[k] == ButtonFor(reviewers[k].login, currentRequested, submitted)
  {
    if Truthy(message) then MessagePanel(message.value)
    else if |reviewers| > 0 then
      ReviewerList(|reviewers| > 1, seq(|reviewers|, k requires 0 <= k < |reviewers| =>
        ButtonFor(reviewers[k].login, currentRequested, submitted)))
    else MessagePanel(NoRecentReviewers)
  }

  // ---------------------------------------------------------------------------
  // The answer to "getPrDetailsAndSuggestIfOwnPR"

  /**
   * The worker's answer as the page callback receives it: a channel error
   * (`chrome.runtime.lastError`), or the response object's fields, each of
   * which may be absent.
   */
  datatype Reply =
    | ChannelError
    | Response(
        error: Option<string>,
        suggestionsApplicable: Option<bool>,
        reviewers: Option<seq<Reviewer>>,
        currentRequestedReviewers: Option<seq<User>>,
        submittedReviewerLogins: Option<seq<string>>)

  /** The arguments of one `displayReviewerSuggestions` call. */
  datatype DisplayCall = DisplayCall(
    reviewers: seq<Reviewer>,
    message: Option<string>,
    currentRequested: seq<User>,
    submitted: seq<string>)

  const ChannelErrorMessage: string := "Error communicating with extension."
  const NotOwnPullRequest: string := "Reviewer suggestions are only shown for your own pull requests."
  const NoRelevantReviewers: string := "No relevant reviewers found for your PR."
  const CouldNotLoad: string := "Could not load suggestions."

  function OrEmpty<T>(o: Option<seq<T>>): seq<T> {
    if o.Some? then o.value else []
  }

  /**
   * The page callback's dispatch on the answer, in priority order: channel
   * error, then `error`, then `suggestionsApplicable === false`, then a
   * non-empty or an empty `reviewers` list, otherwise "Could not load suggestions.".
   */
  function Dispatch(reply: Reply): (d: DisplayCall)
    ensures reply.ChannelError? ==> d == DisplayCall([], Some(ChannelErrorMessage), [], [])
    ensures reply.Response? && Truthy(reply.error) ==> d == DisplayCall([], Some("Error: " + reply.error.value), [], [])
    ensures reply.Response? && !Truthy(reply.error) && reply.suggestionsApplicable == Some(false) ==>
      d == DisplayCall([], Some(NotOwnPullRequest), [], [])
    ensures reply.Response? && !Truthy(reply.error) && reply.suggestionsApplicable != Some(false) ==>
      if reply.reviewers.None? then d == DisplayCall([], Some(CouldNotLoad), [], [])
      else if reply.reviewers.value == [] then
        d == DisplayCall([], Some(NoRelevantReviewers),
                         OrEmpty(reply.currentRequestedReviewers), OrEmpty(reply.submittedReviewerLogins))
      else
        d == DisplayCall(reply.reviewers.value, None,
                         OrEmpty(reply.currentRequestedReviewers), OrEmpty(reply.submittedReviewerLogins))
    ensures d.message.None? <==>
      reply.Response? && !Truthy(reply.error) && reply.suggestionsApplicable != Some(false)
      && reply.reviewers.Some? && |reply.reviewers.value| > 0
    ensures d.reviewers != [] ==> d.message.None?
  {
    match reply
    case ChannelError => DisplayCall([], Some(ChannelErrorMessage), [], [])
    case Response(error, applicable, reviewers, requested, submitted) =>
      if Truthy(error) then
        DisplayCall([], Some("Error: " + error.value), [], [])
      else if applicable == Some(false) then DisplayCall([], Some(NotOwnPullRequest), [], [])
      else if reviewers.Some? then
        if |reviewers.value| > 0 then DisplayCall(reviewers.value, None, OrEmpty(requested), OrEmpty(submitted))
        else DisplayCall([], Some(NoRelevantReviewers), OrEmpty(requested), OrEmpty(submitted))
      else DisplayCall([], Some(CouldNotLoad), [], [])
  }

  /** What the page shows for an answer of the worker. */
  function Shown(reply: Reply): Panel {
    var d := Dispatch(reply);
    Render(d.reviewers, d.message, d.currentRequested, d.submitted)
  }

  /**
   * The list of reviewer buttons is shown exactly for an answer without error,
   * not marked inapplicable, with a non-empty `reviewers` list; its buttons
   * follow that list, and "Request All" appears only when it has several entries.
   */
  lemma ListShownExactlyForSuggestions(reply: Reply)
    ensures Shown(reply).ReviewerList? <==>
      && reply.Response? && !Truthy(reply.error) && reply.suggestionsApplicable != Some(false)
      && reply.reviewers.Some? && |reply.reviewers.value| > 0
    ensures Shown(reply).ReviewerList? ==>
      && |Shown(reply).buttons| == |reply.reviewers.value|
      && (Shown(reply).requestAll <==> |reply.reviewers.value| > 1)
      && forall k :: 0 <= k < |reply.reviewers.value| ==>
           Shown(reply).buttons[k] == ButtonFor(reply.reviewers.value[k].login,
                                               OrEmpty(reply.currentRequestedReviewers),
                                               OrEmpty(reply.submittedReviewerLogins))
  {
  }

  /** An error in the answer is shown as the message, whatever else the answer holds. */
  lemma ErrorTakesPriority(reply: Reply)
    requires reply.Response? && Truthy(reply.error)
    ensures Shown(reply) == MessagePanel("Error: " + reply.error.value)
  {
  }

  // ---------------------------------------------------------------------------
  // main

  /** The "getPrDetailsAndSuggestIfOwnPR" message `main` sends. */
  datatype SuggestRequest = SuggestRequest(loggedInUser: string, owner: string, repo: string, prNumber: string)

  /** What one call of `main` did. */
  datatype MainStep =
    | AlreadyRunning               // another run is waiting for its answer: nothing done
    | NotPullPage                  // not a pull-request page: the container is removed
    | MissingPageInfo              // no logged-in user, or the path does not name a pull request
    | SidebarMissing               // the sidebar is not there yet: a later mutation retries
    | Sent(request: SuggestRequest)

  /**
   * The decision `main` takes once it holds the guard. `loggedInUser` is the
   * content of the page's actor-login meta tag, if any.
   */
  function MainDecision(href: string, pathname: string, loggedInUser: Option<string>, sidebarPresent: bool): (s: MainStep)
    ensures s != AlreadyRunning
    ensures s.Sent? <==>
      && Contains(href, "/pull/") && Truthy(loggedInUser) && sidebarPresent
      && GetRepoInfo(pathname).Some?
      && GetRepoInfo(pathname).value.owner != ""
      && GetRepoInfo(pathname).value.repo != ""
      && GetRepoInfo(pathname).value.prNumber != ""
    ensures s.Sent? ==>
      && s.request.loggedInUser == loggedInUser.value
      && GetRepoInfo(pathname) == Some(RepoInfo(s.request.owner, s.request.repo, s.request.prNumber))
    ensures s == NotPullPage <==> !Contains(href, "/pull/")
  {
    if Contains(href, "/pull/") then
      var repoInfo := GetRepoInfo(pathname);
      if Truthy(loggedInUser) && repoInfo.Some?
         && repoInfo.value.owner != "" && repoInfo.value.repo != "" && repoInfo.value.prNumber != "" then
        if !sidebarPresent then SidebarMissing
        else Sent(SuggestRequest(loggedInUser.value, repoInfo.value.owner, repoInfo.value.repo, repoInfo.value.prNumber))
      else MissingPageInfo
    else NotPullPage
  }

  /**
   * The page script's controller state. `isMainLogicRunning` is the source's
   * flag; the ghost counters record the suggestion requests sent and answered,
   * and `Valid` says the flag is set exactly while one request awaits its
   * answer, so that at most one is ever in flight.
   */
  class PageController {
    var isMainLogicRunning: bool
    ghost var sent: nat
    ghost var answered: nat

    ghost predicate Valid()
      reads this
    {
      answered <= sent <= answered + 1 && (isMainLogicRunning <==> sent == answered + 1)
    }

    constructor ()
      ensures Valid() && !isMainLogicRunning && sent == 0 && answered == 0
    {
      isMainLogicRunning := false;
      sent, answered := 0, 0;
    }

    /**
     * `main`: returns at once while a run holds the flag; otherwise takes the
     * flag, and keeps it only when it sends the suggestion request.
     */
    method RunMainLogic(href: string, pathname: string, loggedInUser: Option<string>, sidebarPresent: bool)
      returns (step: MainStep)
      requires Valid()
      modifies this
      ensures Valid() && answered == old(answered)
      ensures old(isMainLogicRunning) ==> step == AlreadyRunning && isMainLogicRunning && sent == old(sent)
      ensures !old(isMainLogicRunning) ==>
        && step == MainDecision(href, pathname, loggedInUser, sidebarPresent)
        && (isMainLogicRunning <==> step.Sent?)
        && sent == old(sent) + (if step.Sent? then 1 else 0)
    {
      if isMainLogicRunning {
        return AlreadyRunning;
      }
      isMainLogicRunning := true;

      if Contains(href, "/pull/") {
        var repoInfo := GetRepoInfo(pathname);
        if Truthy(loggedInUser) && repoInfo.Some?
           && repoInfo.value.owner != "" && repoInfo.value.repo != "" && repoInfo.value.prNumber != "" {
          if !sidebarPresent {
            isMainLogicRunning := false;
            return SidebarMissing;
          }
          step := Sent(SuggestRequest(loggedInUser.value, repoInfo.value.owner, repoInfo.value.repo, repoInfo.value.prNumber));
          sent := sent + 1;
        } else {
          isMainLogicRunning := false;
          step := MissingPageInfo;
        }
      } else {
        isMainLogicRunning := false;
        step := NotPullPage;
      }
    }

    /**
     * The callback of the suggestion request: shows what `Dispatch` chooses and
     * releases the flag whatever the answer (the `finally` block).
     */
    method OnSuggestionReply(reply: Reply) returns (shown: DisplayCall)
      requires Valid() && sent == answered + 1
      modifies this
      ensures Valid() && !isMainLogicRunning
      ensures sent == old(sent) && answered == old(answered) + 1
      ensures shown == Dispatch(reply)
    {
      shown := Dispatch(reply);
      isMainLogicRunning := false;
      answered := answered + 1;
    }
  }

  // ---------------------------------------------------------------------------
  // Worked example of getRepoInfo. Only `RepoInfoExample` states something about
  // the page script; the lemmas after it assemble the example path from its
  // pieces one separator at a time.

  /** For example, the files tab of pull request 7 of octo/hi. */
  lemma RepoInfoExample()
    ensures GetRepoInfo("/octo/hi/pull/7/files") == Some(RepoInfo("octo", "hi", "7"))
  {
    var parts := ExampleParts();
    ExamplePathJoin();
    assert forall k :: 0 <= k < |parts| ==> '/' !in parts[k];
    RepoInfoOfPullPath(parts);
  }

  /** The pieces of the example path. */
  function ExampleParts(): seq<string> {
    ["", "octo", "hi", "pull", "7", "files"]
  }

  /** The example path is its pieces joined with "/", built up from the last piece. */
  lemma ExamplePathJoin()
    ensures Join(ExampleParts(), '/') == "/octo/hi/pull/7/files"
  {
    ExampleTailJoin();
    assert Join(ExampleParts(), '/') == "" + "/" + "octo/hi/pull/7/files";
  }

  lemma ExampleTailJoin()
    ensures Join(ExampleParts()[1..], '/') == "octo/hi/pull/7/files"
  {
    ExampleRepoTailJoin();
    JoinFrom(ExampleParts(), 1, "hi/pull/7/files", "octo/hi/pull/7/files");
  }

  lemma ExampleRepoTailJoin()
    ensures Join(ExampleParts()[2..], '/') == "hi/pull/7/files"
  {
    ExamplePullTailJoin();
    JoinFrom(ExampleParts(), 2, "pull/7/files", "hi/pull/7/files");
  }

  lemma ExamplePullTailJoin()
    ensures Join(ExampleParts()[3..], '/') == "pull/7/files"
  {
    JoinFrom(ExampleParts(), 4, "files", "7/files");
    JoinFrom(ExampleParts(), 3, "7/files", "pull/7/files");
  }

  /** Joining from piece `k` on is piece `k`, the separator, and the join of the rest. */
  lemma JoinFrom(parts: seq<string>, k: nat, tail: string, whole: string)
    requires k + 1 < |parts| && Join(parts[k + 1..], '/') == tail
    requires whole == parts[k] + "/" + tail
    ensures Join(parts[k..], '/') == whole
  {
    assert parts[k..][1..] == parts[k + 1..];
  }
}
