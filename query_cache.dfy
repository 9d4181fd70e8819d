/** The `getArticles` entries of the postApi cache, patched in place by the optimistic mutations,
    together with the set of postApi tags that have been invalidated. */
module QueryCache {
  import opened Types

  /** The argument of `getArticles`, which keys its cache entries. */
  datatype PageKey = PageKey(page: int, limit: int)

  /** A cached `getArticles` result. */
  datatype Page = Page(articles: seq<Post>, articlesCount: int)

  /** What `updateQueryData` hands back for `undo()`: the entry it patched, as it was before the
      recipe ran (`None` when nothing was cached under that key, so the recipe did not run). */
  datatype PatchResult = PatchResult(key: PageKey, before: Option<Page>)

  predicate HasSlug(articles: seq<Post>, slug: string) {
    exists i :: 0 <= i < |articles| && articles[i].slug == slug
  }

  /** `articles.findIndex((a) => a.slug === slug)`: the first position holding the slug, or -1. */
  function FirstIndex(articles: seq<Post>, slug: string): (i: int)
    ensures -1 <= i < |articles|
    ensures i == -1 <==> !HasSlug(articles, slug)
    ensures i >= 0 ==> articles[i].slug == slug && forall j :: 0 <= j < i ==> articles[j].slug != slug
  {
    if articles == [] then -1
    else if articles[0].slug == slug then 0
    else
      var i := FirstIndex(articles[1..], slug);
      assert forall j :: 0 < j < |articles| ==> articles[j] == articles[1..][j - 1];
      if i == -1 then -1 else i + 1
  }

  /** Two lists whose entries carry the same slugs position by position. */
  predicate SameSlugs(a: seq<Post>, b: seq<Post>) {
    |a| == |b| && forall j :: 0 <= j < |a| ==> a[j].slug == b[j].slug
  }

  /** Patching entries without touching their slugs does not move the slug lookup. */
  lemma FirstIndexOfSameSlugs(a: seq<Post>, b: seq<Post>, slug: string)
    requires SameSlugs(a, b)
    ensures FirstIndex(a, slug) == FirstIndex(b, slug)
  {
    var i, k := FirstIndex(a, slug), FirstIndex(b, slug);
    if i != -1 && k != -1 {
      assert !(i < k) && !(k < i);
    }
  }

  /** The lookup the draft recipes run, as a loop. */
  method FindIndex(articles: seq<Post>, slug: string) returns (i: int)
    ensures i == FirstIndex(articles, slug)
  {
    i := 0;
    while i < |articles|
      invariant 0 <= i <= |articles|
      invariant forall j :: 0 <= j < i ==> articles[j].slug != slug
    {
      if articles[i].slug == slug {
        return;
      }
      i := i + 1;
    }
    i := -1;
  }

  /** Replaces the first entry carrying `slug` by `a` (`draft.articles[index] = a`); a page
      without the slug is left as it is. */
  function ReplaceFirst(p: Page, slug: string, a: Post): (r: Page)
    ensures r.articlesCount == p.articlesCount && |r.articles| == |p.articles|
    ensures !HasSlug(p.articles, slug) ==> r == p
    ensures HasSlug(p.articles, slug) ==>
      var i := FirstIndex(p.articles, slug);
      r.articles[i] == a && forall j :: 0 <= j < |p.articles| && j != i ==> r.articles[j] == p.articles[j]
  {
    var i := FirstIndex(p.articles, slug);
    if i == -1 then p else p.(articles := p.articles[i := a])
  }

  class ArticlesCache {
    /** Cached `getArticles` results by argument. */
    var pages: map<PageKey, Page>
    /** postApi tags invalidated so far; an entry providing one of them refetches on next use. */
    var stale: set<Tag>
    /** Cached `getArticleBySlug` results by slug. */
    var details: map<string, Post>

    constructor ()
      ensures pages == map[] && stale == {} && details == map[]
    {
      pages := map[];
      stale := {};
      details := map[];
    }

    /** A fulfilled `getArticles` query stores its result. */
    method Store(key: PageKey, page: Page)
      modifies this
      ensures pages == old(pages)[key := page] && stale == old(stale) && details == old(details)
    {
      pages := pages[key := page];
    }

    /** The part of `updateQueryData` that remembers how to undo the patch about to be applied. */
    method Snapshot(key: PageKey) returns (patch: PatchResult)
      ensures patch.key == key
      ensures key in pages <==> patch.before.Some?
      ensures key in pages ==> patch.before.value == pages[key]
    {
      patch := PatchResult(key, if key in pages then Some(pages[key]) else None);
    }

    /** `draft.articles[i] = a` */
    method ReplaceAt(key: PageKey, i: nat, a: Post)
      requires key in pages && i < |pages[key].articles|
      modifies this
      ensures pages == old(pages)[key := old(pages)[key].(articles := old(pages)[key].articles[i := a])]
      ensures stale == old(stale) && details == old(details)
    {
      var p := pages[key];
      pages := pages[key := p.(articles := p.articles[i := a])];
    }

    /** `draft.articles.unshift(a)` */
    method Unshift(key: PageKey, a: Post)
      requires key in pages
      modifies this
      ensures pages == old(pages)[key := old(pages)[key].(articles := [a] + old(pages)[key].articles)]
      ensures stale == old(stale) && details == old(details)
    {
      var p := pages[key];
      pages := pages[key := p.(articles := [a] + p.articles)];
    }

    /** `draft.articles.splice(i, 1)` */
    method Splice(key: PageKey, i: nat)
      requires key in pages && i < |pages[key].articles|
      modifies this
      ensures pages == old(pages)[key := old(pages)[key].(articles := old(pages)[key].articles[..i] + old(pages)[key].articles[i + 1..])]
      ensures stale == old(stale) && details == old(details)
    {
      var p := pages[key];
      pages := pages[key := p.(articles := p.articles[..i] + p.articles[i + 1..])];
    }

    /** `draft.articlesCount += delta` */
    method AddToCount(key: PageKey, delta: int)
      requires key in pages
      modifies this
      ensures pages == old(pages)[key := old(pages)[key].(articlesCount := old(pages)[key].articlesCount + delta)]
      ensures stale == old(stale) && details == old(details)
    {
      var p := pages[key];
      pages := pages[key := p.(articlesCount := p.articlesCount + delta)];
    }

    /** `patchResult.undo()`: the patched entry goes back to its captured state; nothing else moves. */
    method Undo(patch: PatchResult)
      modifies this
      ensures pages == if patch.before.Some? then old(pages)[patch.key := patch.before.value] else old(pages)
      ensures stale == old(stale) && details == old(details)
    {
      if patch.before.Some? {
        pages := pages[patch.key := patch.before.value];
      }
    }

    /** `postApi.util.invalidateTags(tags)`: the tags join the stale set; invalidating a stale
        tag again changes nothing. */
    method InvalidateTags(tags: seq<Tag>)
      modifies this
      ensures stale == old(stale) + set t | t in tags
      ensures pages == old(pages) && details == old(details)
    {
      stale := stale + set t | t in tags;
    }

    /** A fulfilled `getArticleBySlug` query stores its result. */
    method StoreDetail(slug: string, post: Post)
      modifies this
      ensures details == old(details)[slug := post]
      ensures pages == old(pages) && stale == old(stale)
    {
      details := details[slug := post];
    }
  }
}
