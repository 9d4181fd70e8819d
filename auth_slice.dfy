/** The `auth` slice: the signed-in user, mirrored into the browser's `localStorage` under the
    key `"user"` by `setUser` and `logout` (but not by `updateUser`). */
module AuthSlice {
  import opened Types

  /** The storage key the slice reads at start-up and writes on sign-in. */
  const StorageKey: string := "user"

  /** `{...parsedUser, image: parsedUser.image || ""}`: a missing image becomes the empty string,
      every other field is kept. */
  function WithImageDefault(u: SessionUser): (r: SessionUser)
    ensures r.username == u.username && r.email == u.email && r.token == u.token
    ensures r.image.Some?
    ensures u.image.Some? ==> r == u
    ensures u.image.None? ==> r.image == Some("")
  {
    u.(image := Some(u.image.GetOr("")))
  }

  /** The slice's initial `user`, given what `localStorage` holds under `"user"`. */
  function InitialUser(saved: Option<SessionUser>): (r: Option<SessionUser>)
    ensures r.None? <==> saved.None?
    ensures saved.Some? ==> r == Some(WithImageDefault(saved.value))
  {
    if saved.Some? then Some(WithImageDefault(saved.value)) else None
  }

  class AuthState {
    /** `state.auth.user`; `None` is `null`. */
    var user: Option<SessionUser>
    /** The `"user"` entry of `localStorage` (stored as JSON; the round trip through
        `JSON.stringify`/`JSON.parse` is taken to be the identity). */
    var saved: Option<SessionUser>

    /** What a page load would restore from storage matches the current user, up to the image
        default. */
    predicate ReloadAgrees()
      reads this
    {
      InitialUser(saved) == if user.Some? then Some(WithImageDefault(user.value)) else None
    }

    /** The store starts from whatever the storage holds. */
    constructor (saved: Option<SessionUser>)
      ensures this.saved == saved && user == InitialUser(saved)
      ensures ReloadAgrees()
    {
      this.saved := saved;
      user := InitialUser(saved);
    }

    /** `setUser`: sign-in state and storage both take the payload. */
    method SetUser(u: SessionUser)
      modifies this
      ensures user == Some(u) && saved == Some(u)
      ensures ReloadAgrees()
    {
      user := Some(u);
      saved := Some(u);
    }

    /** `updateUser`: only the in-memory user changes; storage keeps its old entry. */
    method UpdateUser(u: SessionUser)
      modifies this
      ensures user == Some(u) && saved == old(saved)
    {
      user := Some(u);
    }

    /** `logout`: both the user and the storage entry go. */
    method Logout()
      modifies this
      ensures user == None && saved == None
      ensures ReloadAgrees()
    {
      user := None;
      saved := None;
    }
  }
}
