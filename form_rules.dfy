/** The field validation the forms get from react-hook-form's `register`/`Controller` rules, and
    the outcome of a `handleSubmit(onSubmit)`. */
module FormRules {
  import opened Types
  import opened Text
  import opened Requests
  import opened Patterns

  datatype LengthRule = LengthRule(value: nat, message: string)

  /** The two regular expressions in use. */
  datatype PatternKind = EmailPattern | UrlPattern

  datatype PatternRule = PatternRule(kind: PatternKind, message: string)

  /** A `validate` callback: `/^\S*$/.test(v) || message`, or `v === other || message`. */
  datatype Check = NoSpacesCheck(message: string) | EqualsCheck(other: string, message: string)

  /** One field's rules; `None` where the field declares no such rule. */
  datatype Rules = Rules(
    required: Option<string>,
    minLength: Option<LengthRule>,
    maxLength: Option<LengthRule>,
    pattern: Option<PatternRule>,
    validate: seq<Check>)

  predicate Matches(kind: PatternKind, v: string) {
    match kind
    case EmailPattern => IsEmail(v)
    case UrlPattern => IsAvatarUrl(v)
  }

  predicate Passes(c: Check, v: string) {
    match c
    case NoSpacesCheck(_) => NoSpaces(v)
    case EqualsCheck(other, _) => v == other
  }

  predicate PassesAll(checks: seq<Check>, v: string) {
    forall i :: 0 <= i < |checks| ==> Passes(checks[i], v)
  }

  /** The callbacks run in order and the first failing one supplies the message. */
  function FirstFailure(checks: seq<Check>, v: string): (r: Option<string>)
    ensures r.None? <==> PassesAll(checks, v)
    ensures r.Some? ==>
      exists i :: 0 <= i < |checks| && !Passes(checks[i], v) && r.value == checks[i].message && PassesAll(checks[..i], v)
  {
    if checks == [] then None
    else if !Passes(checks[0], v) then Some(checks[0].message)
    else
      var r := FirstFailure(checks[1..], v);
      assert forall i :: 1 <= i < |checks| ==> checks[i] == checks[1..][i - 1];
      r
  }

  predicate TooShort(v: string, rules: Rules) {
    rules.minLength.Some? && |v| < rules.minLength.value.value
  }

  predicate TooLong(v: string, rules: Rules) {
    rules.maxLength.Some? && |v| > rules.maxLength.value.value
  }

  /** What the rules demand of a value, all at once: present if required; within the length
      bounds and matching the pattern unless empty; every callback satisfied. */
  ghost predicate Accepts(v: string, rules: Rules) {
    && (rules.required.Some? ==> v != "")
    && (v != "" ==> !TooShort(v, rules) && !TooLong(v, rules))
    && (v != "" && rules.pattern.Some? ==> Matches(rules.pattern.value.kind, v))
    && PassesAll(rules.validate, v)
  }

  /** The message react-hook-form shows for a text field: `required` first, then the length
      bounds (the maximum's message when too long), then the pattern, then the callbacks; the
      length and pattern rules are skipped for an empty value. */
  function FieldError(v: string, rules: Rules): (r: Option<string>)
    ensures r.None? <==> Accepts(v, rules)
    ensures rules.required.Some? && v == "" ==> r == rules.required
    ensures v != "" && TooLong(v, rules) && !(rules.required.Some? && v == "") ==> r == Some(rules.maxLength.value.message)
    ensures v != "" && TooShort(v, rules) && !TooLong(v, rules) ==> r == Some(rules.minLength.value.message)
  {
    if rules.required.Some? && v == "" then rules.required
    else if v != "" && TooLong(v, rules) then Some(rules.maxLength.value.message)
    else if v != "" && TooShort(v, rules) then Some(rules.minLength.value.message)
    else if v != "" && rules.pattern.Some? && !Matches(rules.pattern.value.kind, v) then Some(rules.pattern.value.message)
    else FirstFailure(rules.validate, v)
  }

  /** A checkbox with `required`: unchecked is an error. */
  function CheckboxError(checked: bool, required: string): (r: Option<string>)
    ensures r.None? <==> checked
    ensures !checked ==> r == Some(required)
  {
    if checked then None else Some(required)
  }

  /** Records a field's error, if any, in the form's error map. */
  function WithError(errors: map<string, string>, field: string, e: Option<string>): (r: map<string, string>)
    ensures e.None? ==> r == errors
    ensures e.Some? ==> r == errors[field := e.value]
    ensures r == map[] <==> errors == map[] && e.None?
    ensures field in r <==> field in errors || e.Some?
  {
    if e.Some? then
      var r := errors[field := e.value];
      assert field in r;
      r
    else errors
  }

  /** What `handleSubmit(onSubmit)` leads to: the validation errors with nothing sent, or the
      request `onSubmit` sent, where it navigated and the server errors it set on fields. */
  datatype Submission =
    | Rejected(errors: map<string, string>)
    | Sent(call: Call, navigateTo: Option<string>, fieldErrors: map<string, string>)
    | Redirected(path: string)
}
