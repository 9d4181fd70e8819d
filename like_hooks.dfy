/** `useLikeArticle`: the component-facing toggle that picks favorite or unfavorite from the
    current state. Its `updateQueryData` and `invalidateTags` calls after success build actions
    that are never dispatched, so the single-article cache and postApi's tags stay as they are. */
module LikeHooks {
  import opened Types
  import opened Requests
  import opened QueryCache
  import opened LikeArticleApi

  const SignInPath: string := "/sign-in"

  /** How a call of `handleFavoriteToggle` ends. */
  datatype ToggleOutcome =
    | Navigated(path: string)
    | Returned(article: Post)
    | Rethrown(error: ServerError)

  /** `handleFavoriteToggle(currentFavorited)` for the hook's `slug`, `page` and signed-in `user`:
      a guest is sent to sign-in and nothing is requested; otherwise the opposite of the current
      state is requested and the list page settles as the mutation leaves it; the server's article
      is returned, or the error rethrown. Neither outcome touches the detail entries or the stale
      tags. */
  method HandleFavoriteToggle(cache: ArticlesCache, user: Option<SessionUser>, slug: string, page: Option<int>,
                              currentFavorited: bool, outcome: Remote<Post>)
    returns (r: ToggleOutcome, sent: Option<Call>)
    modifies cache
    ensures user.None? ==> r == Navigated(SignInPath) && sent == None
    ensures user.None? ==> cache.pages == old(cache.pages)
    ensures cache.stale == old(cache.stale) && cache.details == old(cache.details)
    ensures user.Some? ==> sent == Some(if currentFavorited then UnfavoriteArticleCall(slug) else FavoriteArticleCall(slug))
    ensures user.Some? ==> cache.pages == Settled(old(cache.pages), LikeKey(page), slug, !currentFavorited, outcome)
    ensures user.Some? && outcome.Success? ==> r == Returned(outcome.value)
    ensures user.Some? && outcome.Failure? ==> r == Rethrown(outcome.error)
  {
    if user.None? {
      return Navigated(SignInPath), None;
    }
    var call, result;
    if currentFavorited {
      call, result := UnfavoriteArticle(cache, slug, page, outcome);
    } else {
      call, result := FavoriteArticle(cache, slug, page, outcome);
    }
    sent := Some(call);
    if result.Failure? {
      return Rethrown(result.error), sent;
    }
    r := Returned(result.value);
  }
}
