/**
 * The records the extension exchanges with the code-hosting API and between
 * its background worker and its page script, reduced to the fields the logic
 * reads: a user's login, the optional author of a submitted review, and a
 * suggested reviewer with its avatar URL.
 */
module GitHub {
  import opened Wrappers
  import opened Text

  /** An API user object; only `login` is read. */
  datatype User = User(login: string)

  /** A submitted review; `user` is absent for reviews by deleted accounts. */
  datatype Review = Review(user: Option<User>)

  /** A suggestion as the worker sends it to the page. */
  datatype Reviewer = Reviewer(login: string, avatar_url: string)

  /** Logins of bot accounts end in this suffix. */
  const BotSuffix: string := "[bot]"

  predicate IsBot(login: string) {
    EndsWith(login, BotSuffix)
  }

  /** The avatar address the worker builds for a suggested login. */
  function AvatarUrl(login: string): string {
    "https://github.com/" + login + ".png?size=40"
  }

  /** `users.some((u) => u.login === login)`. */
  function HasLogin(users: seq<User>, login: string): (r: bool)
    ensures r <==> exists k :: 0 <= k < |users| && users[k].login == login
  {
    if users == [] then false
    else users[0].login == login || HasLogin(users[1..], login)
  }

  /** The logins of a list of suggestions, in order. */
  function LoginsOf(reviewers: seq<Reviewer>): (logins: seq<string>)
    ensures |logins| == |reviewers|
    ensures forall k :: 0 <= k < |reviewers| ==> logins[k] == reviewers[k].login
  {
    seq(|reviewers|, k requires 0 <= k < |reviewers| => reviewers[k].login)
  }

  predicate NoDuplicates<T(==)>(s: seq<T>) {
    forall i, j :: 0 <= i < j < |s| ==> s[i] != s[j]
  }
}
