/** The new-article page: guests are redirected; a valid form is sent through `createArticle`
    with blank tags dropped, and success opens the new article. */
module CreateArticlePage {
  import opened Types
  import opened Requests
  import opened QueryCache
  import opened FormRules
  import opened ArticleForm
  import CreateArticleApi

  const SignInPath: string := "/sign-in"
  const ArticlePathPrefix: string := "/articles/"

  /** The page for the session `user` and a submit with values `d`; the clock reading, the
      creation time and the server's answer are inputs. */
  method HandleSubmit(cache: ArticlesCache, user: Option<SessionUser>, d: ArticleData,
                      now: nat, createdAt: string, outcome: Remote<Post>)
    returns (s: Submission)
    modifies cache
    ensures user.None? ==> s == Redirected(SignInPath)
    ensures user.Some? && Validate(d) != map[] ==> s == Rejected(Validate(d))
    ensures user.None? || Validate(d) != map[] ==>
      cache.pages == old(cache.pages) && cache.stale == old(cache.stale)
    ensures user.Some? && Validate(d) == map[] ==>
      s.Sent? && s.call == CreateArticleApi.CreateArticleCall(Payload(d))
      && cache.pages == (if CreateArticleApi.CreateKey in old(cache.pages) && outcome.Success?
        then old(cache.pages)[CreateArticleApi.CreateKey := CreateArticleApi.CreateReconcile(
          CreateArticleApi.Prepend(old(cache.pages)[CreateArticleApi.CreateKey],
            CreateArticleApi.Provisional(Payload(d), user, now, createdAt)), outcome.value)]
        else old(cache.pages))
      && cache.stale == old(cache.stale) + {Articles}
    ensures user.Some? && Validate(d) == map[] && outcome.Success? ==>
      s.navigateTo == Some(ArticlePathPrefix + outcome.value.slug) && s.fieldErrors == map[]
    ensures user.Some? && Validate(d) == map[] && outcome.Failure? ==>
      s.navigateTo == None && s.fieldErrors == ArticleServerErrors(outcome.error)
    ensures cache.details == old(cache.details)
  {
    if user.None? {
      return Redirected(SignInPath);
    }
    var errors := Validate(d);
    if errors != map[] {
      return Rejected(errors);
    }
    var call, result := CreateArticleApi.CreateArticle(cache, Payload(d), user, now, createdAt, outcome);
    if result.Success? {
      s := Sent(call, Some(ArticlePathPrefix + result.value.slug), map[]);
    } else {
      s := Sent(call, None, ArticleServerErrors(result.error));
    }
  }
}
