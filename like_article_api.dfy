/** `favoriteArticle` and `unfavoriteArticle`: an optimistic toggle on the cached page
    `(currentPage, 5)`, then the server article on success or `undo()` on failure. */
module LikeArticleApi {
  import opened Types
  import opened Requests
  import opened QueryCache

  /** Every like mutation patches the page cached with limit 5. */
  const PageLimit: int := 5

  /** `favoriteArticle`'s request and its `invalidatesTags`. */
  function FavoriteArticleCall(slug: string): (c: Call)
    ensures NoSlash(slug) ==> Decode(c.request) == Some(Favorite(slug))
    ensures c.tags == [ArticleId(slug), Articles]
  {
    Call(Request(POST, FavoriteUrl(slug), NoBody), [ArticleId(slug), Articles])
  }

  /** `unfavoriteArticle`'s request and its `invalidatesTags`. */
  function UnfavoriteArticleCall(slug: string): (c: Call)
    ensures NoSlash(slug) ==> Decode(c.request) == Some(Unfavorite(slug))
    ensures c.tags == [ArticleId(slug), Articles]
  {
    Call(Request(DELETE, FavoriteUrl(slug), NoBody), [ArticleId(slug), Articles])
  }

  /** The cache key a like mutation patches: `currentPage` defaults to 1. */
  function LikeKey(currentPage: Option<int>): (k: PageKey)
    ensures k.limit == PageLimit
    ensures currentPage.None? ==> k.page == 1
    ensures currentPage.Some? ==> k.page == currentPage.value
  {
    PageKey(currentPage.GetOr(1), PageLimit)
  }

  /** `{...a, favorited, favoritesCount: a.favoritesCount ± 1}`: no clamp, so 0 can become -1. */
  function Toggled(a: Post, favorited: bool): (b: Post)
    ensures b.favorited == favorited
    ensures b.favoritesCount == if favorited then a.favoritesCount + 1 else a.favoritesCount - 1
    ensures b.(favorited := a.favorited, favoritesCount := a.favoritesCount) == a
  {
    a.(favorited := favorited, favoritesCount := if favorited then a.favoritesCount + 1 else a.favoritesCount - 1)
  }

  /** The optimistic recipe: only the first entry with the slug changes, and only in its flag and
      its count; a page without the slug is unchanged. */
  function TogglePatch(p: Page, slug: string, favorited: bool): (r: Page)
    ensures r.articlesCount == p.articlesCount && SameSlugs(r.articles, p.articles)
    ensures !HasSlug(p.articles, slug) ==> r == p
    ensures HasSlug(p.articles, slug) ==>
      var i := FirstIndex(p.articles, slug);
      r.articles[i] == Toggled(p.articles[i], favorited)
      && forall j :: 0 <= j < |p.articles| && j != i ==> r.articles[j] == p.articles[j]
  {
    var i := FirstIndex(p.articles, slug);
    if i == -1 then p else ReplaceFirst(p, slug, Toggled(p.articles[i], favorited))
  }

  /** Unfavoriting right after favoriting an unfavorited entry gives back the page it started from. */
  lemma UnfavoriteUndoesFavorite(p: Page, slug: string)
    requires HasSlug(p.articles, slug) && !p.articles[FirstIndex(p.articles, slug)].favorited
    ensures TogglePatch(TogglePatch(p, slug, true), slug, false) == p
  {
    var q := TogglePatch(p, slug, true);
    FirstIndexOfSameSlugs(q.articles, p.articles, slug);
    var r := TogglePatch(q, slug, false);
    assert r.articles == p.articles;
  }

  /** The server article supersedes the optimistic one: reconciling after the toggle gives the
      same page as reconciling the untouched page. */
  lemma ReconcileSupersedesToggle(p: Page, slug: string, favorited: bool, data: Post)
    ensures ReplaceFirst(TogglePatch(p, slug, favorited), slug, data) == ReplaceFirst(p, slug, data)
  {
    var q := TogglePatch(p, slug, favorited);
    FirstIndexOfSameSlugs(q.articles, p.articles, slug);
    assert ReplaceFirst(q, slug, data).articles == ReplaceFirst(p, slug, data).articles;
  }

  /** The whole cache after a like mutation settles: the reconciled page on success, the cache as
      it was before the call on failure; a page that was not cached stays uncached. */
  function Settled(pages: map<PageKey, Page>, key: PageKey, slug: string, favorited: bool, outcome: Remote<Post>): (r: map<PageKey, Page>)
    ensures r.Keys == pages.Keys
    ensures forall k :: k in pages && k != key ==> r[k] == pages[k]
    ensures outcome.Failure? || key !in pages ==> r == pages
    ensures key in pages ==> |r[key].articles| == |pages[key].articles| && r[key].articlesCount == pages[key].articlesCount
    ensures outcome.Success? && key in pages ==> r[key] == ReplaceFirst(pages[key], slug, outcome.value)
    ensures outcome.Success? && key in pages && HasSlug(pages[key].articles, slug) ==>
      r[key].articles[FirstIndex(pages[key].articles, slug)] == outcome.value
  {
    if key in pages && outcome.Success? then
      ReconcileSupersedesToggle(pages[key], slug, favorited, outcome.value);
      pages[key := ReplaceFirst(TogglePatch(pages[key], slug, favorited), slug, outcome.value)]
    else pages
  }

  /** The optimistic step of `onQueryStarted`, applied through `updateQueryData`. */
  method ApplyToggle(cache: ArticlesCache, key: PageKey, slug: string, favorited: bool) returns (patch: PatchResult)
    modifies cache
    ensures patch.key == key
    ensures patch.before == if key in old(cache.pages) then Some(old(cache.pages)[key]) else None
    ensures cache.pages == if key in old(cache.pages)
      then old(cache.pages)[key := TogglePatch(old(cache.pages)[key], slug, favorited)]
      else old(cache.pages)
    ensures cache.stale == old(cache.stale)
    ensures cache.details == old(cache.details)
  {
    patch := cache.Snapshot(key);
    if key in cache.pages {
      var i := FindIndex(cache.pages[key].articles, slug);
      if i != -1 {
        var a := cache.pages[key].articles[i];
        cache.ReplaceAt(key, i, a.(favorited := favorited,
          favoritesCount := if favorited then a.favoritesCount + 1 else a.favoritesCount - 1));
      }
    }
  }

  /** The success step: the entry for the slug becomes the server article. */
  method ApplyReconcile(cache: ArticlesCache, key: PageKey, slug: string, data: Post)
    modifies cache
    ensures cache.pages == if key in old(cache.pages)
      then old(cache.pages)[key := ReplaceFirst(old(cache.pages)[key], slug, data)]
      else old(cache.pages)
    ensures cache.stale == old(cache.stale)
    ensures cache.details == old(cache.details)
  {
    if key in cache.pages {
      var i := FindIndex(cache.pages[key].articles, slug);
      if i != -1 {
        cache.ReplaceAt(key, i, data);
      }
    }
  }

  /** `onQueryStarted` shared by both endpoints: patch, await the call, reconcile or undo. The
      endpoint's own tags belong to this API's cache, which holds no queries, so the postApi
      stale set is left alone. */
  method RunToggle(cache: ArticlesCache, slug: string, currentPage: Option<int>, favorited: bool, outcome: Remote<Post>)
    modifies cache
    ensures cache.pages == Settled(old(cache.pages), LikeKey(currentPage), slug, favorited, outcome)
    ensures cache.stale == old(cache.stale)
    ensures cache.details == old(cache.details)
  {
    var key := LikeKey(currentPage);
    var patch := ApplyToggle(cache, key, slug, favorited);
    match outcome {
      case Success(data) =>
        ApplyReconcile(cache, key, slug, data);
      case Failure(_) =>
        cache.Undo(patch);
    }
  }

  /** `favoriteArticle`: the request it sends, its settled result, and the cache afterwards. */
  method FavoriteArticle(cache: ArticlesCache, slug: string, currentPage: Option<int>, outcome: Remote<Post>)
    returns (sent: Call, result: Remote<Post>)
    modifies cache
    ensures sent == FavoriteArticleCall(slug) && result == outcome
    ensures cache.pages == Settled(old(cache.pages), LikeKey(currentPage), slug, true, outcome)
    ensures cache.stale == old(cache.stale)
    ensures cache.details == old(cache.details)
  {
    sent := FavoriteArticleCall(slug);
    RunToggle(cache, slug, currentPage, true, outcome);
    result := outcome;
  }

  /** `unfavoriteArticle`: the mirror image of `favoriteArticle`. */
  method UnfavoriteArticle(cache: ArticlesCache, slug: string, currentPage: Option<int>, outcome: Remote<Post>)
    returns (sent: Call, result: Remote<Post>)
    modifies cache
    ensures sent == UnfavoriteArticleCall(slug) && result == outcome
    ensures cache.pages == Settled(old(cache.pages), LikeKey(currentPage), slug, false, outcome)
    ensures cache.stale == old(cache.stale)
    ensures cache.details == old(cache.details)
  {
    sent := UnfavoriteArticleCall(slug);
    RunToggle(cache, slug, currentPage, false, outcome);
    result := outcome;
  }
}
