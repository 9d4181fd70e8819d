/** The sign-in page: email and password checks, login, then sign-in and navigation; a failure is
    only logged. */
module SignInForm {
  import opened Types
  import opened Text
  import opened Requests
  import opened Patterns
  import opened FormRules
  import opened AccountFields
  import opened AuthSlice
  import AuthApi

  const ArticlesPath: string := "/articles"

  datatype SignInData = SignInData(email: string, password: string)

  function Validate(d: SignInData): (r: map<string, string>)
    ensures r == map[] <==> EmailShape(d.email) && d.password != ""
    ensures "email" in r <==> EmailError(d.email).Some?
    ensures "password" in r <==> d.password == ""
  {
    var m := WithError(map[], "email", EmailError(d.email));
    var r := WithError(m, "password", SignInPasswordError(d.password));
    r
  }

  /** `handleSubmit(onSubmit)`: on success the server's user is signed in and stored, then the
      list opens; on failure the session is untouched and no field error is set. */
  method HandleSubmit(auth: AuthState, d: SignInData, outcome: Remote<SessionUser>) returns (s: Submission)
    modifies auth
    ensures Validate(d) != map[] ==> s == Rejected(Validate(d))
    ensures Validate(d) == map[] && outcome.Success? ==>
      s == Sent(AuthApi.LoginUserCall(d.email, d.password), Some(ArticlesPath), map[])
      && auth.user == Some(outcome.value) && auth.saved == Some(outcome.value)
    ensures Validate(d) == map[] && outcome.Failure? ==> s == Sent(AuthApi.LoginUserCall(d.email, d.password), None, map[])
    ensures Validate(d) != map[] || outcome.Failure? ==> auth.user == old(auth.user) && auth.saved == old(auth.saved)
  {
    var errors := Validate(d);
    if errors != map[] {
      return Rejected(errors);
    }
    var call := AuthApi.LoginUserCall(d.email, d.password);
    if outcome.Success? {
      auth.SetUser(outcome.value);
      s := Sent(call, Some(ArticlesPath), map[]);
    } else {
      s := Sent(call, None, map[]);
    }
  }
}
