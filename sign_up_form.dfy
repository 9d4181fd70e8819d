/** The sign-up page: five validated fields, registration, then sign-in and navigation; a 422
    puts the server's messages on the username, email and password fields. */
module SignUpForm {
  import opened Types
  import opened Text
  import opened Requests
  import opened Patterns
  import opened FormRules
  import opened ServerErrors
  import opened AccountFields
  import opened AuthSlice
  import AuthApi

  const ArticlesPath: string := "/articles"

  datatype SignUpData = SignUpData(username: string, email: string, password: string, repeatPassword: string, agree: bool)

  /** The form's validation errors by field. */
  function Validate(d: SignUpData): (r: map<string, string>)
    ensures r == map[] <==>
      3 <= |d.username| <= 20 && NoSpaces(d.username) && EmailShape(d.email)
      && 6 <= |d.password| <= 40 && NoSpaces(d.password) && d.repeatPassword == d.password && d.agree
    ensures "username" in r <==> UsernameError(d.username).Some?
    ensures "repeatPassword" in r <==> RepeatPasswordError(d.repeatPassword, d.password).Some?
    ensures "agree" in r <==> !d.agree
  {
    var m := WithError(map[], "username", UsernameError(d.username));
    var m := WithError(m, "email", EmailError(d.email));
    var m := WithError(m, "password", PasswordError(d.password));
    var m := WithError(m, "repeatPassword", RepeatPasswordError(d.repeatPassword, d.password));
    var r := WithError(m, "agree", AgreeError(d.agree));
    r
  }

  const ServerRules: seq<ErrorRule> := [
    ErrorRule("username", "Username ", " can only contain Latin letters and numbers"),
    ErrorRule("email", "Email ", ""),
    ErrorRule("password", "Password ", "")
  ]

  /** `handleSubmit(onSubmit)`: invalid input is reported and nothing is sent; otherwise the
      registration is sent, and on success the server's user is signed in (and stored) before the
      navigation to the list, while a failure only sets the 422 field errors. */
  method HandleSubmit(auth: AuthState, d: SignUpData, outcome: Remote<SessionUser>) returns (s: Submission)
    modifies auth
    ensures Validate(d) != map[] ==> s == Rejected(Validate(d))
    ensures Validate(d) == map[] ==> s.Sent? && s.call == AuthApi.RegisterUserCall(d.username, d.email, d.password)
    ensures Validate(d) == map[] && outcome.Success? ==>
      auth.user == Some(outcome.value) && auth.saved == Some(outcome.value)
      && s.navigateTo == Some(ArticlesPath) && s.fieldErrors == map[]
    ensures Validate(d) != map[] || outcome.Failure? ==> auth.user == old(auth.user) && auth.saved == old(auth.saved)
    ensures Validate(d) == map[] && outcome.Failure? ==>
      s.navigateTo == None && s.fieldErrors == FieldErrors(outcome.error, ServerRules)
  {
    var errors := Validate(d);
    if errors != map[] {
      return Rejected(errors);
    }
    var call := AuthApi.RegisterUserCall(d.username, d.email, d.password);
    if outcome.Success? {
      auth.SetUser(outcome.value);
      s := Sent(call, Some(ArticlesPath), map[]);
    } else {
      s := Sent(call, None, FieldErrors(outcome.error, ServerRules));
    }
  }
}
