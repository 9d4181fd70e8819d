/** The account fields' rules, shared verbatim by the sign-up, sign-in and profile forms. */
module AccountFields {
  import opened Types
  import opened Text
  import opened Patterns
  import opened FormRules

  const UsernameRequired: string := "Username is required"
  const UsernameTooShort: string := "Username must be at least 3 characters"
  const UsernameTooLong: string := "Username must not exceed 20 characters"
  const UsernameSpaces: string := "Username must not contain spaces"
  const EmailRequired: string := "Email is required"
  const EmailInvalid: string := "Please enter a valid email"
  const EmailSpaces: string := "Email must not contain spaces"
  const PasswordRequired: string := "Password is required"
  const PasswordTooShort: string := "Password needs to be at least 6 characters"
  const PasswordTooLong: string := "Password must not exceed 40 characters"
  const PasswordSpaces: string := "Password must not contain spaces"
  const RepeatRequired: string := "Please repeat your password"
  const RepeatMismatch: string := "Passwords must match"
  const AgreeRequired: string := "You must agree to the processing of personal information"
  const AvatarInvalid: string := "Please enter a valid URL"

  const UsernameRules: Rules :=
    Rules(Some(UsernameRequired), Some(LengthRule(3, UsernameTooShort)), Some(LengthRule(20, UsernameTooLong)),
          None, [NoSpacesCheck(UsernameSpaces)])
  const EmailRules: Rules :=
    Rules(Some(EmailRequired), None, None, Some(PatternRule(EmailPattern, EmailInvalid)), [NoSpacesCheck(EmailSpaces)])
  const PasswordRules: Rules :=
    Rules(Some(PasswordRequired), Some(LengthRule(6, PasswordTooShort)), Some(LengthRule(40, PasswordTooLong)),
          None, [NoSpacesCheck(PasswordSpaces)])
  /** The profile form's new password: the sign-up bounds without `required`. Its callback also
      lets `undefined` and `""` through, which `/^\S*$/` accepts anyway. */
  const NewPasswordRules: Rules :=
    Rules(None, Some(LengthRule(6, PasswordTooShort)), Some(LengthRule(40, PasswordTooLong)),
          None, [NoSpacesCheck(PasswordSpaces)])
  const AvatarRules: Rules := Rules(None, None, None, Some(PatternRule(UrlPattern, AvatarInvalid)), [])

  function RepeatPasswordRules(password: string): Rules {
    Rules(Some(RepeatRequired), None, None, None, [EqualsCheck(password, RepeatMismatch)])
  }

  /** Username: required, 3 to 20 characters, no white space. */
  function UsernameError(v: string): (r: Option<string>)
    ensures r.None? <==> 3 <= |v| <= 20 && NoSpaces(v)
    ensures v == "" ==> r == Some(UsernameRequired)
    ensures 0 < |v| < 3 ==> r == Some(UsernameTooShort)
    ensures |v| > 20 ==> r == Some(UsernameTooLong)
    ensures 3 <= |v| <= 20 && !NoSpaces(v) ==> r == Some(UsernameSpaces)
  {
    FieldError(v, UsernameRules)
  }

  /** Email: required and matching `local@domain.tld`; the white-space message can never show,
      since the pattern already rejects white space. */
  function EmailError(v: string): (r: Option<string>)
    ensures r.None? <==> EmailShape(v)
    ensures v == "" ==> r == Some(EmailRequired)
    ensures v != "" && !EmailShape(v) ==> r == Some(EmailInvalid)
    ensures r != Some(EmailSpaces)
  {
    IsEmailMatchesPattern(v);
    FieldError(v, EmailRules)
  }

  /** Sign-up password: required, 6 to 40 characters, no white space. */
  function PasswordError(v: string): (r: Option<string>)
    ensures r.None? <==> 6 <= |v| <= 40 && NoSpaces(v)
    ensures v == "" ==> r == Some(PasswordRequired)
    ensures 0 < |v| < 6 ==> r == Some(PasswordTooShort)
    ensures |v| > 40 ==> r == Some(PasswordTooLong)
    ensures 6 <= |v| <= 40 && !NoSpaces(v) ==> r == Some(PasswordSpaces)
  {
    FieldError(v, PasswordRules)
  }

  /** Repeated password: required and equal to the password field's current value. */
  function RepeatPasswordError(v: string, password: string): (r: Option<string>)
    ensures r.None? <==> v != "" && v == password
    ensures v == "" ==> r == Some(RepeatRequired)
    ensures v != "" && v != password ==> r == Some(RepeatMismatch)
  {
    FieldError(v, RepeatPasswordRules(password))
  }

  /** The consent checkbox must be ticked. */
  function AgreeError(agree: bool): (r: Option<string>)
    ensures r.None? <==> agree
    ensures !agree ==> r == Some(AgreeRequired)
  {
    CheckboxError(agree, AgreeRequired)
  }

  /** Sign-in password: only required. */
  function SignInPasswordError(v: string): (r: Option<string>)
    ensures r.None? <==> v != ""
    ensures v == "" ==> r == Some(PasswordRequired)
  {
    FieldError(v, Rules(Some(PasswordRequired), None, None, None, []))
  }

  /** Profile password: may stay empty; otherwise the sign-up bounds and no white space. */
  function NewPasswordError(v: string): (r: Option<string>)
    ensures r.None? <==> v == "" || (6 <= |v| <= 40 && NoSpaces(v))
    ensures 0 < |v| < 6 ==> r == Some(PasswordTooShort)
    ensures |v| > 40 ==> r == Some(PasswordTooLong)
  {
    FieldError(v, NewPasswordRules)
  }

  /** Avatar URL: may stay empty; otherwise it must match the URL pattern. */
  function AvatarError(v: string): (r: Option<string>)
    ensures r.None? <==> v == "" || UrlShape(v)
    ensures v != "" && !UrlShape(v) ==> r == Some(AvatarInvalid)
  {
    IsAvatarUrlMatchesPattern(v);
    FieldError(v, AvatarRules)
  }
}
