/** The profile page: defaults from the session, optional password and avatar, the update call,
    and the image fallback for the user it stores. */
module EditProfile {
  import opened Types
  import opened Text
  import opened Requests
  import opened Patterns
  import opened QueryCache
  import opened FormRules
  import opened ServerErrors
  import opened AccountFields
  import opened AuthSlice
  import AuthApi

  const ArticlesPath: string := "/articles"

  datatype ProfileData = ProfileData(username: string, email: string, password: string, image: string)

  /** The form's initial values: the session's fields, or `""`; the password always starts empty. */
  function Defaults(user: Option<SessionUser>): (d: ProfileData)
    ensures d.password == ""
    ensures user.None? ==> d == ProfileData("", "", "", "")
    ensures user.Some? ==> d.username == user.value.username && d.email == user.value.email
    ensures user.Some? && user.value.image.Some? ==> d.image == user.value.image.value
    ensures user.Some? && user.value.image.None? ==> d.image == ""
  {
    if user.Some? then ProfileData(user.value.username, user.value.email, "", user.value.image.GetOr(""))
    else ProfileData("", "", "", "")
  }

  function Validate(d: ProfileData): (r: map<string, string>)
    ensures r == map[] <==>
      3 <= |d.username| <= 20 && NoSpaces(d.username) && EmailShape(d.email)
      && (d.password == "" || (6 <= |d.password| <= 40 && NoSpaces(d.password)))
      && (d.image == "" || UrlShape(d.image))
    ensures "password" in r <==> NewPasswordError(d.password).Some?
    ensures "image" in r <==> AvatarError(d.image).Some?
  {
    var m := WithError(map[], "username", UsernameError(d.username));
    var m := WithError(m, "email", EmailError(d.email));
    var m := WithError(m, "password", NewPasswordError(d.password));
    var r := WithError(m, "image", AvatarError(d.image));
    r
  }

  /** `v || undefined`: an empty field is left out of the request. */
  function OrUndefined(v: string): (r: Option<string>)
    ensures r.None? <==> v == ""
    ensures r.Some? ==> r.value == v
  {
    if v == "" then None else Some(v)
  }

  /** The request the form sends. */
  function UpdateCall(d: ProfileData): (c: Call)
    ensures Decode(c.request) == Some(UpdateUser(ProfileChanges(d.username, d.email, OrUndefined(d.password), OrUndefined(d.image))))
  {
    AuthApi.UpdateUserCall(d.username, d.email, OrUndefined(d.password), OrUndefined(d.image))
  }

  /** `response.user.image || data.image || ""`: the server's image when it sent a non-empty one,
      otherwise what was entered. */
  function SavedImage(server: Option<string>, entered: string): (r: string)
    ensures server.Some? && server.value != "" ==> r == server.value
    ensures server.None? || server.value == "" ==> r == entered
  {
    if server.Some? && server.value != "" then server.value else entered
  }

  /** The user `setUser` receives: the server's user with the image fallback applied. */
  function SavedUser(server: SessionUser, entered: string): (u: SessionUser)
    ensures u.username == server.username && u.email == server.email && u.token == server.token
    ensures u.image == Some(SavedImage(server.image, entered))
  {
    server.(image := Some(SavedImage(server.image, entered)))
  }

  /** Saving the form as it opened, when the server echoes no image, keeps the session's image
      (an absent one becomes `""`) and sends no password. */
  lemma ResubmitKeepsImage(u: SessionUser, server: SessionUser)
    requires server.image.None? || server.image == Some("")
    ensures SavedUser(server, Defaults(Some(u)).image).image == Some(u.image.GetOr(""))
    ensures UpdateCall(Defaults(Some(u))).request.body.user.newPassword == None
  {
  }

  const ServerRules: seq<ErrorRule> := [ErrorRule("username", "Username ", ""), ErrorRule("email", "Email ", "")]

  /** `handleSubmit(onSubmit)`. On success authApi's `onQueryStarted` first puts the server's user
      in the session and invalidates `Articles`, then the page stores the user with the image
      fallback and opens the list. On failure only the 422 field errors are set. */
  method HandleSubmit(auth: AuthState, cache: ArticlesCache, d: ProfileData, outcome: Remote<SessionUser>)
    returns (s: Submission)
    modifies auth, cache
    ensures Validate(d) != map[] ==> s == Rejected(Validate(d))
    ensures Validate(d) != map[] || outcome.Failure? ==>
      auth.user == old(auth.user) && auth.saved == old(auth.saved) && cache.stale == old(cache.stale)
    ensures Validate(d) == map[] && outcome.Success? ==>
      s == Sent(UpdateCall(d), Some(ArticlesPath), map[])
      && auth.user == Some(SavedUser(outcome.value, d.image)) && auth.saved == auth.user
      && cache.stale == old(cache.stale) + {Articles}
    ensures Validate(d) == map[] && outcome.Failure? ==>
      s == Sent(UpdateCall(d), None, FieldErrors(outcome.error, ServerRules))
    ensures cache.pages == old(cache.pages) && cache.details == old(cache.details)
  {
    var errors := Validate(d);
    if errors != map[] {
      return Rejected(errors);
    }
    var call, result := AuthApi.UpdateUserMutation(auth, cache, d.username, d.email, OrUndefined(d.password), OrUndefined(d.image), outcome);
    if result.Success? {
      auth.SetUser(SavedUser(result.value, d.image));
      s := Sent(call, Some(ArticlesPath), map[]);
    } else {
      s := Sent(call, None, FieldErrors(result.error, ServerRules));
    }
  }
}
