/** `deleteArticle`: the first entry with the slug is spliced out of page `(page, 5)` and the
    count lowered, then kept on success or undone on failure; `Articles` is invalidated in
    postApi either way. */
module DeleteArticleApi {
  import opened Types
  import opened Requests
  import opened QueryCache

  const PageLimit: int := 5

  /** `deleteArticle`'s request and its `invalidatesTags`. */
  function DeleteArticleCall(slug: string): (c: Call)
    ensures NoSlash(slug) ==> Decode(c.request) == Some(Endpoint.DeleteArticle(slug))
    ensures c.tags == [Articles]
  {
    Call(Request(DELETE, ArticleUrl(slug), NoBody), [Articles])
  }

  /** The cache key a delete patches: `page` defaults to 1. */
  function DeleteKey(page: Option<int>): (k: PageKey)
    ensures k == PageKey(if page.Some? then page.value else 1, PageLimit)
  {
    PageKey(page.GetOr(1), PageLimit)
  }

  /** The optimistic recipe: the first entry with the slug leaves, the others keep their order,
      and the count drops by one; a page without the slug is unchanged. */
  function RemoveFirst(p: Page, slug: string): (r: Page)
    ensures !HasSlug(p.articles, slug) ==> r == p
    ensures HasSlug(p.articles, slug) ==>
      var i := FirstIndex(p.articles, slug);
      r.articles == p.articles[..i] + p.articles[i + 1..] && r.articlesCount == p.articlesCount - 1
  {
    var i := FirstIndex(p.articles, slug);
    if i == -1 then p else Page(p.articles[..i] + p.articles[i + 1..], p.articlesCount - 1)
  }

  /** Putting the removed entry back at its index restores the list. */
  lemma RemoveFirstReinsert(p: Page, slug: string)
    requires HasSlug(p.articles, slug)
    ensures var i := FirstIndex(p.articles, slug);
      var r := RemoveFirst(p, slug).articles;
      r[..i] + [p.articles[i]] + r[i..] == p.articles
  {
    var i := FirstIndex(p.articles, slug);
    var r := RemoveFirst(p, slug).articles;
    assert r[..i] == p.articles[..i];
    assert r[i..] == p.articles[i + 1..];
    assert p.articles[..i] + [p.articles[i]] + p.articles[i + 1..] == p.articles;
  }

  /** When the slug occurs once on the page, it is gone after the patch. */
  lemma RemoveFirstRemovesUnique(p: Page, slug: string)
    requires forall j, k :: 0 <= j < k < |p.articles| ==> p.articles[j].slug != slug || p.articles[k].slug != slug
    ensures !HasSlug(RemoveFirst(p, slug).articles, slug)
  {
    if HasSlug(p.articles, slug) {
      var i := FirstIndex(p.articles, slug);
      var r := RemoveFirst(p, slug).articles;
      forall j | 0 <= j < |r|
        ensures r[j].slug != slug
      {
        if j < i {
          assert r[j] == p.articles[j];
        } else {
          assert r[j] == p.articles[j + 1];
        }
      }
    }
  }

  /** The optimistic step. */
  method ApplyRemove(cache: ArticlesCache, key: PageKey, slug: string) returns (patch: PatchResult)
    modifies cache
    ensures patch.key == key
    ensures patch.before == if key in old(cache.pages) then Some(old(cache.pages)[key]) else None
    ensures cache.pages == if key in old(cache.pages)
      then old(cache.pages)[key := RemoveFirst(old(cache.pages)[key], slug)]
      else old(cache.pages)
    ensures cache.stale == old(cache.stale)
    ensures cache.details == old(cache.details)
  {
    patch := cache.Snapshot(key);
    if key in cache.pages {
      var index := FindIndex(cache.pages[key].articles, slug);
      if index != -1 {
        cache.Splice(key, index);
        cache.AddToCount(key, -1);
      }
    }
  }

  /** `deleteArticle` end to end: nothing more on success, `undo()` on failure, then the
      invalidation. */
  method DeleteArticle(cache: ArticlesCache, slug: string, page: Option<int>, outcome: Remote<()>)
    returns (sent: Call, result: Remote<()>)
    modifies cache
    ensures sent == DeleteArticleCall(slug) && result == outcome
    ensures cache.pages == if DeleteKey(page) in old(cache.pages) && outcome.Success?
      then old(cache.pages)[DeleteKey(page) := RemoveFirst(old(cache.pages)[DeleteKey(page)], slug)]
      else old(cache.pages)
    ensures cache.stale == old(cache.stale) + {Articles}
    ensures cache.details == old(cache.details)
  {
    sent := DeleteArticleCall(slug);
    var patch := ApplyRemove(cache, DeleteKey(page), slug);
    if outcome.Failure? {
      cache.Undo(patch);
    }
    cache.InvalidateTags([Articles]);
    result := outcome;
  }
}
