/** blogApi: the shared base query that signs requests with the user's token, and the article
    and profile mutations declared with their own tags. */
module BlogApi {
  import opened Types
  import opened Text
  import opened Requests

  const BaseUrl: string := "https://blog-platform.kata.academy/api"
  /** `Headers.set` stores names in lower case. */
  const AuthorizationHeader: string := "authorization"
  const TokenScheme: string := "Token "
  /** The list id blogApi's article mutations invalidate. */
  const ListId: string := "LIST"

  /** The headers `prepareHeaders` leaves behind: a non-empty token of the signed-in user becomes
      `authorization: Token <token>`; otherwise the headers pass through untouched. */
  function PreparedHeaders(headers: map<string, string>, user: Option<SessionUser>): (r: map<string, string>)
    ensures user.Some? && user.value.token != "" ==>
      AuthorizationHeader in r && r[AuthorizationHeader] == TokenScheme + user.value.token
    ensures forall h :: h != AuthorizationHeader ==> (h in r <==> h in headers) && (h in r ==> r[h] == headers[h])
    ensures user.None? || user.value.token == "" ==> r == headers
  {
    if user.Some? && user.value.token != "" then headers[AuthorizationHeader := TokenScheme + user.value.token]
    else headers
  }

  /** The token can be read back from the header the base query sets. */
  lemma TokenRecoverable(headers: map<string, string>, u: SessionUser)
    requires u.token != ""
    ensures var r := PreparedHeaders(headers, Some(u));
      r[AuthorizationHeader][..|TokenScheme|] == TokenScheme && r[AuthorizationHeader][|TokenScheme|..] == u.token
  {
    var v := PreparedHeaders(headers, Some(u))[AuthorizationHeader];
    assert v == TokenScheme + u.token;
  }

  /** Preparing the headers a second time changes nothing. */
  lemma PrepareHeadersIdempotent(headers: map<string, string>, user: Option<SessionUser>)
    ensures PreparedHeaders(PreparedHeaders(headers, user), user) == PreparedHeaders(headers, user)
  {
  }

  /** A `Headers` object: names are kept in lower case. */
  class Headers {
    var entries: map<string, string>

    constructor (entries: map<string, string>)
      ensures this.entries == entries
    {
      this.entries := entries;
    }

    /** `headers.set(name, value)` */
    method Set(name: string, value: string)
      modifies this
      ensures entries == old(entries)[LowerAscii(name) := value]
    {
      entries := entries[LowerAscii(name) := value];
    }
  }

  /** `prepareHeaders(headers, {getState})`: sets the header on the object it is given and returns
      that same object. */
  method PrepareHeaders(headers: Headers, user: Option<SessionUser>) returns (r: Headers)
    modifies headers
    ensures r == headers
    ensures headers.entries == PreparedHeaders(old(headers.entries), user)
  {
    if user.Some? && user.value.token != "" {
      assert LowerAscii("Authorization") == AuthorizationHeader;
      headers.Set("Authorization", TokenScheme + user.value.token);
    }
    return headers;
  }

  /** blogApi's `createArticle(body)`: the body is sent as given. */
  function CreateArticleCall(article: ArticleInput): (c: Call)
    ensures Decode(c.request) == Some(Endpoint.CreateArticle(article))
    ensures c.tags == [ArticleId(ListId)]
  {
    Call(Request(POST, "/articles", ArticleEnvelope(article)), [ArticleId(ListId)])
  }

  /** blogApi's `updateArticle({slug, article})`. */
  function UpdateArticleCall(slug: string, article: ArticleInput): (c: Call)
    ensures NoSlash(slug) ==> Decode(c.request) == Some(Endpoint.UpdateArticle(slug, article))
    ensures c.tags == [ArticleId(slug), ArticleId(ListId)]
  {
    Call(Request(PUT, ArticleUrl(slug), ArticleEnvelope(article)), [ArticleId(slug), ArticleId(ListId)])
  }

  /** blogApi's `updateUser(userData)`: the `User` tag is invalidated. */
  function UpdateUserCall(username: string, email: string, password: Option<string>, image: Option<string>): (c: Call)
    ensures Decode(c.request) == Some(Endpoint.UpdateUser(ProfileChanges(username, email, password, image)))
    ensures c.tags == [UserTag]
  {
    Call(Request(PUT, "/user", UserEnvelope(ProfileChanges(username, email, password, image))), [UserTag])
  }
}
