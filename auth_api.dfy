/** authApi: sign-in, sign-up and profile update requests; a successful profile update also
    refreshes the signed-in user and invalidates postApi's `Articles`. */
module AuthApi {
  import opened Types
  import opened Requests
  import opened QueryCache
  import opened AuthSlice

  /** `loginUser(credentials)`; authApi declares no tags. */
  function LoginUserCall(email: string, password: string): (c: Call)
    ensures Decode(c.request) == Some(Login(Credentials(email, password)))
    ensures c.tags == []
  {
    Call(Request(POST, "/users/login", UserEnvelope(Credentials(email, password))), [])
  }

  /** `registerUser(userData)`. */
  function RegisterUserCall(username: string, email: string, password: string): (c: Call)
    ensures Decode(c.request) == Some(Register(Registration(username, email, password)))
    ensures c.tags == []
  {
    Call(Request(POST, "/users", UserEnvelope(Registration(username, email, password))), [])
  }

  /** `updateUser(userData)`; `password` and `image` are sent only when present. */
  function UpdateUserCall(username: string, email: string, password: Option<string>, image: Option<string>): (c: Call)
    ensures Decode(c.request) == Some(UpdateUser(ProfileChanges(username, email, password, image)))
    ensures c.tags == []
  {
    Call(Request(PUT, "/user", UserEnvelope(ProfileChanges(username, email, password, image))), [])
  }

  /** `updateUser` with its `onQueryStarted`: on success the returned user replaces
      `state.auth.user` (without touching storage) and `Articles` goes stale in postApi; a
      failure is only logged. */
  method UpdateUserMutation(auth: AuthState, cache: ArticlesCache, username: string, email: string,
                            password: Option<string>, image: Option<string>, outcome: Remote<SessionUser>)
    returns (sent: Call, result: Remote<SessionUser>)
    modifies auth, cache
    ensures sent == UpdateUserCall(username, email, password, image) && result == outcome
    ensures auth.saved == old(auth.saved)
    ensures auth.user == if outcome.Success? then Some(outcome.value) else old(auth.user)
    ensures cache.stale == if outcome.Success? then old(cache.stale) + {Articles} else old(cache.stale)
    ensures cache.pages == old(cache.pages) && cache.details == old(cache.details)
  {
    sent := UpdateUserCall(username, email, password, image);
    if outcome.Success? {
      auth.UpdateUser(outcome.value);
      cache.InvalidateTags([Articles]);
    }
    result := outcome;
  }
}
