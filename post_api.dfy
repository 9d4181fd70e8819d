/** postApi's three endpoints: the paged list, the single article and a delete that invalidates
    both the article and the list. */
module PostApi {
  import opened Types
  import opened Requests

  /** The offset `getArticles` sends for a 1-based page. */
  function Offset(page: int, limit: int): (offset: int)
    ensures page == 1 ==> offset == 0
    ensures page >= 1 && limit >= 0 ==> offset >= 0
  {
    (page - 1) * limit
  }

  /** The next page starts exactly one limit further on. */
  lemma NextPageOffset(page: int, limit: int)
    ensures Offset(page + 1, limit) == Offset(page, limit) + limit
  {
    calc {
      Offset(page + 1, limit);
      page * limit;
      (page - 1) * limit + limit;
    }
  }

  /** For a positive limit the windows of two different pages never overlap. */
  lemma {:induction false} PagesDoNotOverlap(p: int, q: int, limit: int)
    requires limit > 0 && p < q
    ensures Offset(p, limit) + limit <= Offset(q, limit)
    decreases q - p
  {
    NextPageOffset(p, limit);
    if p + 1 < q {
      PagesDoNotOverlap(p + 1, q, limit);
    }
  }

  /** `getArticles({page, limit})`. */
  function GetArticlesCall(page: int, limit: int): (c: Call)
    ensures Decode(c.request) == Some(ListArticles(limit, Offset(page, limit)))
    ensures c.tags == [Articles]
  {
    Call(Request(GET, ListUrl(limit, Offset(page, limit)), NoBody), [Articles])
  }

  /** `getArticleBySlug(slug)`; the tags are what the entry provides. */
  function GetArticleBySlugCall(slug: string): (c: Call)
    ensures NoSlash(slug) ==> Decode(c.request) == Some(ReadArticle(slug))
    ensures c.tags == [ArticleId(slug)]
  {
    Call(Request(GET, ArticleUrl(slug), NoBody), [ArticleId(slug)])
  }

  /** postApi's own `deleteArticle(slug)`. */
  function DeleteArticleCall(slug: string): (c: Call)
    ensures NoSlash(slug) ==> Decode(c.request) == Some(Endpoint.DeleteArticle(slug))
    ensures c.tags == [ArticleId(slug), Articles]
  {
    Call(Request(DELETE, ArticleUrl(slug), NoBody), [ArticleId(slug), Articles])
  }
}
