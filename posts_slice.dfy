/** The `posts` slice: the current list page and a by-slug article map. */
module PostsSlice {
  import opened Types

  class PostsState {
    var currentPage: int
    var articles: map<string, Post>

    /** Every entry is filed under its own slug. */
    predicate Valid()
      reads this
    {
      forall s :: s in articles ==> articles[s].slug == s
    }

    constructor ()
      ensures currentPage == 1 && articles == map[]
      ensures Valid()
    {
      currentPage := 1;
      articles := map[];
    }

    /** `setCurrentPage`: the page is taken as given. */
    method SetCurrentPage(page: int)
      modifies this
      ensures currentPage == page && articles == old(articles)
    {
      currentPage := page;
    }

    /** `updateArticle`: the article is filed (or refiled) under its slug. */
    method UpdateArticle(a: Post)
      requires Valid()
      modifies this
      ensures articles == old(articles)[a.slug := a] && currentPage == old(currentPage)
      ensures Valid()
    {
      articles := articles[a.slug := a];
    }
  }
}
