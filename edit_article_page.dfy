/** The edit page: the list page from the query string, the form filled from the loaded article,
    and a submit through `updateArticle` that opens the article under the server's slug. */
module EditArticlePage {
  import opened Types
  import opened Text
  import opened Decimal
  import opened Requests
  import opened QueryCache
  import opened FormRules
  import opened ArticleForm
  import EditArticleApi

  const ArticlePathPrefix: string := "/articles/"

  /** `parseInt(searchParams.get("page") || "1", 10)`; `None` stands for `NaN`. Without a `page`
      parameter (or with an empty one) the first page is meant. */
  function CurrentPage(param: Option<string>): (page: Option<int>)
    ensures param.None? || param == Some("") ==> page == Some(1)
  {
    assert NatToString(1) == [DigitChar(1)] == "1";
    assert IntToString(1) + "" == "1";
    JsParseIntRoundTrip(1, "");
    JsParseInt(if param.Some? && param.value != "" then param.value else "1")
  }

  /** A `?page=` written from a number reads back as that number. */
  lemma CurrentPageOfLink(page: int)
    ensures CurrentPage(Some(IntToString(page))) == Some(page)
  {
    assert IntToString(page) + "" == IntToString(page);
    JsParseIntRoundTrip(page, "");
  }

  /** The loaded article's four fields, as the prefill effect sets them. */
  function Prefill(a: Post): (d: ArticleData)
    ensures d.title == a.title && d.description == a.description && d.body == a.body && d.tagList == a.tagList
  {
    ArticleData(a.title, a.description, a.body, a.tagList)
  }

  /** Saving the prefilled form unchanged sends the article's own content when none of its tags
      is blank. */
  lemma ResubmitPrefilled(a: Post)
    requires forall i :: 0 <= i < |a.tagList| ==> Filled(a.tagList[i])
    ensures Payload(Prefill(a)) == ArticleInput(a.title, a.description, a.body, a.tagList)
  {
    SubmittedTagsKeepsFilled(a.tagList);
  }

  /** `handleSubmit(onSubmit)` for the route's `slug` and `?page=` value: the blank-filtered
      payload goes to `updateArticle` with the parsed page; success navigates to the slug the
      server returned, failure sets the 422 field errors. */
  method HandleSubmit(cache: ArticlesCache, slug: string, d: ArticleData, pageParam: Option<string>, outcome: Remote<Post>)
    returns (s: Submission)
    modifies cache
    ensures Validate(d) != map[] ==> s == Rejected(Validate(d)) && cache.stale == old(cache.stale)
    ensures Validate(d) == map[] ==>
      s.Sent? && s.call == EditArticleApi.UpdateArticleCall(slug, Payload(d), CurrentPage(pageParam))
      && cache.stale == if outcome.Success? then old(cache.stale) + {Articles} else old(cache.stale)
    ensures Validate(d) == map[] && outcome.Success? ==>
      s.navigateTo == Some(ArticlePathPrefix + outcome.value.slug) && s.fieldErrors == map[]
    ensures Validate(d) == map[] && outcome.Failure? ==>
      s.navigateTo == None && s.fieldErrors == ArticleServerErrors(outcome.error)
    ensures cache.pages == old(cache.pages) && cache.details == old(cache.details)
  {
    var errors := Validate(d);
    if errors != map[] {
      return Rejected(errors);
    }
    var call, result := EditArticleApi.UpdateArticle(cache, slug, Payload(d), CurrentPage(pageParam), outcome);
    if result.Success? {
      s := Sent(call, Some(ArticlePathPrefix + result.value.slug), map[]);
    } else {
      s := Sent(call, None, ArticleServerErrors(result.error));
    }
  }
}
