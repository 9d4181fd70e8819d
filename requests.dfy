/** HTTP requests as the endpoint builders produce them, and the remote API's routing table
    (`Decode`), against which every builder is proved to reach the intended endpoint. */
module Requests {
  import opened Types
  import opened Text
  import opened Decimal

  datatype Method = GET | POST | PUT | DELETE

  /** The `user` object of the account endpoints. */
  datatype UserPayload =
    | Credentials(email: string, password: string)
    | Registration(username: string, email: string, password: string)
    | ProfileChanges(username: string, email: string, newPassword: Option<string>, newImage: Option<string>)

  /** A JSON request body: none, `{article: ...}` or `{user: ...}`. */
  datatype Body = NoBody | ArticleEnvelope(article: ArticleInput) | UserEnvelope(user: UserPayload)

  /** A request relative to the API base URL. */
  datatype Request = Request(verb: Method, url: string, body: Body)

  /** An endpoint definition applied to its argument: the request it sends and the tags it
      provides (a query) or invalidates (a mutation). */
  datatype Call = Call(request: Request, tags: seq<Tag>)

  /** The operations the remote API distinguishes. */
  datatype Endpoint =
    | ListArticles(limit: int, offset: int)
    | ReadArticle(slug: string)
    | CreateArticle(article: ArticleInput)
    | UpdateArticle(slug: string, article: ArticleInput)
    | DeleteArticle(slug: string)
    | Favorite(slug: string)
    | Unfavorite(slug: string)
    | Register(user: UserPayload)
    | Login(user: UserPayload)
    | UpdateUser(user: UserPayload)

  const ListPrefix: string := "/articles?limit="
  const OffsetKey: string := "&offset="
  const ArticlePrefix: string := "/articles/"
  const FavoriteSuffix: string := "/favorite"

  /** `/articles?limit=${limit}&offset=${offset}`: the API reads back exactly the limit and offset
      it was built from, for every pair of integers. */
  function ListUrl(limit: int, offset: int): (url: string)
    ensures ParseListUrl(url) == Some((limit, offset))
  {
    var query := IntToString(limit) + OffsetKey + IntToString(offset);
    var url := ListPrefix + query;
    assert url[..|ListPrefix|] == ListPrefix && url[|ListPrefix|..] == query;
    ListQueryRoundTrip(limit, offset);
    url
  }

  /** `/articles/${slug}`: never a list URL (they part at `/` versus `?`), and read back as the
      slug it was built from whenever the slug has no `/`. */
  function ArticleUrl(slug: string): (url: string)
    ensures ParseListUrl(url) == None
    ensures NoSlash(slug) ==> ParseArticleUrl(url) == Some(slug) && ParseFavoriteUrl(url) == None
  {
    var url := ArticlePrefix + slug;
    assert url[9] == '/' && ListPrefix[9] == '?';
    assert url[..|ArticlePrefix|] == ArticlePrefix && url[|ArticlePrefix|..] == slug;
    assert NoSlash(slug) && |url| >= |ArticlePrefix| + |FavoriteSuffix| ==>
      url[|url| - |FavoriteSuffix|..] != FavoriteSuffix by {
      if NoSlash(slug) && |url| >= |ArticlePrefix| + |FavoriteSuffix| {
        assert url[|url| - |FavoriteSuffix|] == slug[|slug| - |FavoriteSuffix|];
        assert url[|url| - |FavoriteSuffix|..][0] != FavoriteSuffix[0];
      }
    }
    url
  }

  /** `/articles/${slug}/favorite`: read back as the slug it was built from, and not as an
      article URL, whenever the slug has no `/`. */
  function FavoriteUrl(slug: string): (url: string)
    ensures NoSlash(slug) ==> ParseFavoriteUrl(url) == Some(slug) && ParseArticleUrl(url) == None
  {
    var url := ArticlePrefix + slug + FavoriteSuffix;
    assert url[..|ArticlePrefix|] == ArticlePrefix;
    assert url[|url| - |FavoriteSuffix|..] == FavoriteSuffix;
    assert url[|ArticlePrefix|..|url| - |FavoriteSuffix|] == slug;
    assert url[|ArticlePrefix|..][|slug|] == '/';
    url
  }

  predicate NoSlash(s: string) {
    forall i :: 0 <= i < |s| ==> s[i] != '/'
  }

  /** `${limit}&offset=${offset}`, the part of a list URL after its prefix. */
  function ParseListQuery(rest: string): Option<(int, int)> {
    var k := IndexOf(rest, '&');
    if k == -1 then None
    else
      var limit := ParseDecimal(rest[..k]);
      var tail := rest[k..];
      if limit.None? || !StartsWith(tail, OffsetKey) then None
      else
        var offset := ParseDecimal(tail[|OffsetKey|..]);
        if offset.None? then None else Some((limit.value, offset.value))
  }

  function ParseListUrl(url: string): Option<(int, int)> {
    if !StartsWith(url, ListPrefix) then None else ParseListQuery(url[|ListPrefix|..])
  }

  function ParseArticleUrl(url: string): Option<string> {
    if StartsWith(url, ArticlePrefix) && NoSlash(url[|ArticlePrefix|..]) then Some(url[|ArticlePrefix|..])
    else None
  }

  function ParseFavoriteUrl(url: string): Option<string> {
    if StartsWith(url, ArticlePrefix) && |url| >= |ArticlePrefix| + |FavoriteSuffix|
       && url[|url| - |FavoriteSuffix|..] == FavoriteSuffix
       && NoSlash(url[|ArticlePrefix|..|url| - |FavoriteSuffix|])
    then Some(url[|ArticlePrefix|..|url| - |FavoriteSuffix|])
    else None
  }

  /** The HTTP method each endpoint of the API is served under. */
  function MethodOf(e: Endpoint): Method {
    match e
    case ListArticles(_, _) | ReadArticle(_) => GET
    case CreateArticle(_) | Favorite(_) | Register(_) | Login(_) => POST
    case UpdateArticle(_, _) | UpdateUser(_) => PUT
    case DeleteArticle(_) | Unfavorite(_) => DELETE
  }

  /** The remote API's routing: which endpoint a request reaches, if any. A request only reaches an
      endpoint served under its own method, a GET or DELETE carries no body, and an article body
      reaches an endpoint about that very article. */
  function Decode(r: Request): (d: Option<Endpoint>)
    ensures d.Some? ==> MethodOf(d.value) == r.verb
    ensures d.Some? && (r.verb == GET || r.verb == DELETE) ==> r.body == NoBody
    ensures d.Some? && r.body.ArticleEnvelope? ==>
      (d.value.CreateArticle? || d.value.UpdateArticle?) && d.value.article == r.body.article
  {
    match r.verb
    case GET =>
      if r.body != NoBody then None
      else if ParseListUrl(r.url).Some? then
        Some(ListArticles(ParseListUrl(r.url).value.0, ParseListUrl(r.url).value.1))
      else if ParseArticleUrl(r.url).Some? then Some(ReadArticle(ParseArticleUrl(r.url).value))
      else None
    case POST =>
      if r.url == "/articles" && r.body.ArticleEnvelope? then Some(CreateArticle(r.body.article))
      else if ParseFavoriteUrl(r.url).Some? && r.body == NoBody then Some(Favorite(ParseFavoriteUrl(r.url).value))
      else if r.url == "/users" && r.body.UserEnvelope? then Some(Register(r.body.user))
      else if r.url == "/users/login" && r.body.UserEnvelope? then Some(Login(r.body.user))
      else None
    case PUT =>
      if ParseArticleUrl(r.url).Some? && r.body.ArticleEnvelope? then
        Some(UpdateArticle(ParseArticleUrl(r.url).value, r.body.article))
      else if r.url == "/user" && r.body.UserEnvelope? then Some(UpdateUser(r.body.user))
      else None
    case DELETE =>
      if r.body != NoBody then None
      else if ParseFavoriteUrl(r.url).Some? then Some(Unfavorite(ParseFavoriteUrl(r.url).value))
      else if ParseArticleUrl(r.url).Some? then Some(DeleteArticle(ParseArticleUrl(r.url).value))
      else None
  }

  /** The list URL carries exactly the limit and offset it was built from. */
  lemma ListQueryRoundTrip(limit: int, offset: int)
    ensures ParseListQuery(IntToString(limit) + OffsetKey + IntToString(offset)) == Some((limit, offset))
  {
    var a, b := IntToString(limit), IntToString(offset);
    var rest := a + OffsetKey + b;
    assert forall j :: 0 <= j < |a| ==> rest[j] == a[j] && a[j] != '&';
    assert rest[|a|] == '&';
    assert IndexOf(rest, '&') == |a|;
    assert rest[..|a|] == a;
    assert rest[|a|..] == OffsetKey + b;
    assert (OffsetKey + b)[|OffsetKey|..] == b;
    ParseDecimalRoundTrip(limit);
    ParseDecimalRoundTrip(offset);
  }
}
