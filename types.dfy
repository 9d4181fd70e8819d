/** Records shared by the whole client: articles, the session user, remote outcomes and cache tags. */
module Types {

  datatype Option<T> = None | Some(value: T) {
    function GetOr(default: T): T {
      if Some? then value else default
    }
  }

  /** The author block embedded in an article. */
  datatype Author = Author(username: string, image: string)

  /** An article as the remote API returns it (`Post` in the client). */
  datatype Post = Post(
    slug: string,
    title: string,
    description: string,
    body: string,
    tagList: seq<string>,
    createdAt: string,
    favorited: bool,
    favoritesCount: int,
    author: Author)

  /** The article fields a create or edit form submits, wrapped as `{article: ...}` on the wire. */
  datatype ArticleInput = ArticleInput(title: string, description: string, body: string, tagList: seq<string>)

  /** The signed-in user; `image` is optional on the wire. */
  datatype SessionUser = SessionUser(username: string, email: string, token: string, image: Option<string>)

  /** A rejected remote call: the HTTP status (any non-HTTP failure carries a status other than 422)
      and the optional `data.errors` object of field messages. */
  datatype ServerError = ServerError(status: int, errors: Option<map<string, string>>)

  /** How a remote call settles: fulfilled with its payload, or rejected. */
  datatype Remote<T> = Success(value: T) | Failure(error: ServerError)

  /** Cache tags: the bare `"Articles"` tag, `{type: "Articles", id}` and the bare `"User"` tag. */
  datatype Tag = Articles | ArticleId(id: string) | UserTag
}
