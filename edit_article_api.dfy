/** `updateArticle`: no optimistic patch; `Articles` is invalidated in postApi only once the call
    has succeeded. */
module EditArticleApi {
  import opened Types
  import opened Requests
  import opened QueryCache

  /** `updateArticle`'s request and its `invalidatesTags`; `currentPage` is accepted but plays no
      part in either. */
  function UpdateArticleCall(slug: string, article: ArticleInput, currentPage: Option<int>): (c: Call)
    ensures NoSlash(slug) ==> Decode(c.request) == Some(Endpoint.UpdateArticle(slug, article))
    ensures c.tags == [ArticleId(slug), Articles]
  {
    Call(Request(PUT, ArticleUrl(slug), ArticleEnvelope(article)), [ArticleId(slug), Articles])
  }

  lemma CurrentPageIgnored(slug: string, article: ArticleInput, p: Option<int>, q: Option<int>)
    ensures UpdateArticleCall(slug, article, p) == UpdateArticleCall(slug, article, q)
  {
  }

  /** `updateArticle` end to end: the cached pages never change; success invalidates
      `Articles`, failure is only logged. */
  method UpdateArticle(cache: ArticlesCache, slug: string, article: ArticleInput, currentPage: Option<int>, outcome: Remote<Post>)
    returns (sent: Call, result: Remote<Post>)
    modifies cache
    ensures sent == UpdateArticleCall(slug, article, currentPage) && result == outcome
    ensures cache.pages == old(cache.pages)
    ensures cache.stale == if outcome.Success? then old(cache.stale) + {Articles} else old(cache.stale)
    ensures cache.details == old(cache.details)
  {
    sent := UpdateArticleCall(slug, article, currentPage);
    if outcome.Success? {
      cache.InvalidateTags([Articles]);
    }
    result := outcome;
  }
}
