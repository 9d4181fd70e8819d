/** `createArticle`: a provisional article is put at the head of page `(1, 5)`, then the server
    article is reconciled by slug or prepended, or the page is rolled back; `Articles` is
    invalidated in postApi either way. */
module CreateArticleApi {
  import opened Types
  import opened Text
  import opened Decimal
  import opened Requests
  import opened QueryCache

  /** The create path always patches the first page with limit 5. */
  const CreateKey: PageKey := PageKey(1, 5)

  /** `createArticle`'s request and its `invalidatesTags`. */
  function CreateArticleCall(article: ArticleInput): (c: Call)
    ensures Decode(c.request) == Some(Endpoint.CreateArticle(article))
    ensures c.tags == [Articles]
  {
    Call(Request(POST, "/articles", ArticleEnvelope(article)), [Articles])
  }

  /** `${title.toLowerCase().replace(/\s+/g, "-")}-${Date.now()}` with the clock reading `now`. */
  function ProvisionalSlug(title: string, now: nat): (slug: string)
    ensures NoSpaces(slug) && NoAsciiUpper(slug)
    ensures slug == DashRuns(LowerAscii(title)) + "-" + NatToString(now)
  {
    DashRunsShape(LowerAscii(title));
    DashRuns(LowerAscii(title)) + "-" + NatToString(now)
  }

  /** A title that is already lower-case and without white space is kept as the slug's stem. */
  lemma ProvisionalSlugOfPlainTitle(title: string, now: nat)
    requires NoSpaces(title) && NoAsciiUpper(title)
    ensures ProvisionalSlug(title, now) == title + "-" + NatToString(now)
  {
    assert LowerAscii(title) == title;
    DashRunsKeepsSpaceless(title);
  }

  /** Two creates of one title at different instants get different provisional slugs. */
  lemma ProvisionalSlugsDifferInTime(title: string, t1: nat, t2: nat)
    requires t1 != t2
    ensures ProvisionalSlug(title, t1) != ProvisionalSlug(title, t2)
  {
    var stem := DashRuns(LowerAscii(title)) + "-";
    var a, b := NatToString(t1), NatToString(t2);
    if stem + a == stem + b {
      assert a == (stem + a)[|stem|..];
      assert b == (stem + b)[|stem|..];
      NatToStringValue(t1);
      NatToStringValue(t2);
    }
  }

  /** Two lower-case words separated by any run of white space give `a-b-now`: the whole run
      becomes a single `-`. */
  lemma ProvisionalSlugOfTwoWords(a: string, w: string, b: string, now: nat)
    requires NoSpaces(a) && NoAsciiUpper(a) && a != []
    requires NoSpaces(b) && NoAsciiUpper(b) && b != []
    requires |w| > 0 && IsBlank(w)
    ensures ProvisionalSlug(a + w + b, now) == a + "-" + b + "-" + NatToString(now)
  {
    var t := a + w + b;
    assert LowerAscii(t) == t by {
      forall k | 0 <= k < |t|
        ensures !IsAsciiUpper(t[k])
      {
        if k < |a| {
          assert t[k] == a[k];
        } else if k < |a| + |w| {
          assert t[k] == w[k - |a|];
        } else {
          assert t[k] == b[k - |a| - |w|];
        }
      }
    }
    DashRunsCollapsesRun(a, w, b);
    DashRunsKeepsSpaceless(a);
    DashRunsKeepsSpaceless(b);
  }

  /** The provisional article: the form fields, no favorites, and the session user as author
      (`"unknown"` and `""` stand in for a missing or empty name and image). */
  function Provisional(article: ArticleInput, user: Option<SessionUser>, now: nat, createdAt: string): (a: Post)
    ensures a.slug == ProvisionalSlug(article.title, now)
    ensures a.title == article.title && a.description == article.description
    ensures a.body == article.body && a.tagList == article.tagList && a.createdAt == createdAt
    ensures !a.favorited && a.favoritesCount == 0
    ensures a.author.username == if user.Some? && user.value.username != "" then user.value.username else "unknown"
    ensures a.author.image == if user.Some? && user.value.image.Some? then user.value.image.value else ""
  {
    Post(ProvisionalSlug(article.title, now), article.title, article.description, article.body,
      article.tagList, createdAt, false, 0,
      Author(
        if user.Some? && user.value.username != "" then user.value.username else "unknown",
        if user.Some? && user.value.image.Some? && user.value.image.value != "" then user.value.image.value else ""))
  }

  /** `unshift(a)` and `articlesCount += 1`: `a` comes first and the old entries follow in order. */
  function Prepend(p: Page, a: Post): (r: Page)
    ensures |r.articles| == |p.articles| + 1 && r.articles[0] == a && r.articles[1..] == p.articles
    ensures r.articlesCount == p.articlesCount + 1
  {
    Page([a] + p.articles, p.articlesCount + 1)
  }

  /** The success recipe: replace the entry with the server slug in place, or prepend the server
      article and count it. */
  function CreateReconcile(p: Page, data: Post): (r: Page)
    ensures HasSlug(p.articles, data.slug) ==> r == ReplaceFirst(p, data.slug, data) && r.articlesCount == p.articlesCount
    ensures !HasSlug(p.articles, data.slug) ==> r == Prepend(p, data)
  {
    if FirstIndex(p.articles, data.slug) != -1 then ReplaceFirst(p, data.slug, data) else Prepend(p, data)
  }

  /** As written: a server slug that is neither the provisional one nor already cached leaves two
      new entries at the head and the count raised by two. */
  lemma CreateCountsTwice(p: Page, provisional: Post, data: Post)
    requires data.slug != provisional.slug && !HasSlug(p.articles, data.slug)
    ensures CreateReconcile(Prepend(p, provisional), data) == Page([data, provisional] + p.articles, p.articlesCount + 2)
  {
    var q := Prepend(p, provisional);
    assert forall i :: 0 < i < |q.articles| ==> q.articles[i] == p.articles[i - 1];
    assert [data] + ([provisional] + p.articles) == [data, provisional] + p.articles;
  }

  /** Were the server to keep the provisional slug, its article would take the provisional
      entry's place and the count would rise only once. */
  lemma CreateReplacesProvisional(p: Page, provisional: Post, data: Post)
    requires data.slug == provisional.slug
    ensures CreateReconcile(Prepend(p, provisional), data) == Prepend(p, data)
  {
    var q := Prepend(p, provisional);
    assert q.articles[0].slug == data.slug;
    assert FirstIndex(q.articles, data.slug) == 0;
    assert q.articles[0 := data] == [data] + p.articles;
  }

  /** The optimistic step. */
  method ApplyPrepend(cache: ArticlesCache, key: PageKey, a: Post) returns (patch: PatchResult)
    modifies cache
    ensures patch.key == key
    ensures patch.before == if key in old(cache.pages) then Some(old(cache.pages)[key]) else None
    ensures cache.pages == if key in old(cache.pages)
      then old(cache.pages)[key := Prepend(old(cache.pages)[key], a)]
      else old(cache.pages)
    ensures cache.stale == old(cache.stale)
    ensures cache.details == old(cache.details)
  {
    patch := cache.Snapshot(key);
    if key in cache.pages {
      cache.Unshift(key, a);
      cache.AddToCount(key, 1);
    }
  }

  /** The success step. */
  method ApplyCreateReconcile(cache: ArticlesCache, key: PageKey, data: Post)
    modifies cache
    ensures cache.pages == if key in old(cache.pages)
      then old(cache.pages)[key := CreateReconcile(old(cache.pages)[key], data)]
      else old(cache.pages)
    ensures cache.stale == old(cache.stale)
    ensures cache.details == old(cache.details)
  {
    if key in cache.pages {
      var index := FindIndex(cache.pages[key].articles, data.slug);
      if index != -1 {
        cache.ReplaceAt(key, index, data);
      } else {
        cache.Unshift(key, data);
        cache.AddToCount(key, 1);
      }
    }
  }

  /** `createArticle` end to end: the session user, the clock reading and the settled call are
      parameters. */
  method CreateArticle(cache: ArticlesCache, article: ArticleInput, user: Option<SessionUser>,
                       now: nat, createdAt: string, outcome: Remote<Post>)
    returns (sent: Call, result: Remote<Post>)
    modifies cache
    ensures sent == CreateArticleCall(article) && result == outcome
    ensures cache.pages == if CreateKey in old(cache.pages) && outcome.Success?
      then old(cache.pages)[CreateKey := CreateReconcile(Prepend(old(cache.pages)[CreateKey], Provisional(article, user, now, createdAt)), outcome.value)]
      else old(cache.pages)
    ensures cache.stale == old(cache.stale) + {Articles}
    ensures cache.details == old(cache.details)
  {
    sent := CreateArticleCall(article);
    var patch := ApplyPrepend(cache, CreateKey, Provisional(article, user, now, createdAt));
    match outcome {
      case Success(data) =>
        ApplyCreateReconcile(cache, CreateKey, data);
      case Failure(_) =>
        cache.Undo(patch);
    }
    cache.InvalidateTags([Articles]);
    result := outcome;
  }
}
