/** The 422 handling every form's `onSubmit` repeats: each field whose key carries a non-empty
    message in `data.errors` gets a `server` error with a fixed wording around it. */
module ServerErrors {
  import opened Types

  /** `if (serverErrors[key]) setError(key, {message: prefix + serverErrors[key] + suffix})` */
  datatype ErrorRule = ErrorRule(key: string, prefix: string, suffix: string)

  /** JavaScript truthiness of `serverErrors[key]`: present and not the empty string. */
  predicate Reported(errors: map<string, string>, key: string) {
    key in errors && errors[key] != ""
  }

  predicate DistinctKeys(rules: seq<ErrorRule>) {
    forall i, j :: 0 <= i < j < |rules| ==> rules[i].key != rules[j].key
  }

  /** The errors `setError` records for a rejected call; only a 422 with an `errors` object sets
      any. */
  function FieldErrors(err: ServerError, rules: seq<ErrorRule>): (r: map<string, string>)
    requires DistinctKeys(rules)
    ensures err.status != 422 || err.errors.None? ==> r == map[]
    ensures forall k :: k in r <==>
      err.status == 422 && err.errors.Some? && Reported(err.errors.value, k) && exists i :: 0 <= i < |rules| && rules[i].key == k
    ensures forall i :: 0 <= i < |rules| && err.status == 422 && err.errors.Some? && Reported(err.errors.value, rules[i].key) ==>
      rules[i].key in r && r[rules[i].key] == rules[i].prefix + err.errors.value[rules[i].key] + rules[i].suffix
  {
    if err.status == 422 && err.errors.Some? then Mapped(err.errors.value, rules) else map[]
  }

  function Mapped(errors: map<string, string>, rules: seq<ErrorRule>): (r: map<string, string>)
    requires DistinctKeys(rules)
    ensures forall k :: k in r <==> Reported(errors, k) && exists i :: 0 <= i < |rules| && rules[i].key == k
    ensures forall i :: 0 <= i < |rules| && Reported(errors, rules[i].key) ==>
      rules[i].key in r && r[rules[i].key] == rules[i].prefix + errors[rules[i].key] + rules[i].suffix
  {
    if rules == [] then map[]
    else
      var rest := Mapped(errors, rules[1..]);
      var rule := rules[0];
      assert forall i :: 1 <= i < |rules| ==> rules[i] == rules[1..][i - 1];
      assert rule.key !in rest by {
        assert forall i :: 0 <= i < |rules[1..]| ==> rules[1..][i].key != rule.key;
      }
      if Reported(errors, rule.key) then rest[rule.key := rule.prefix + errors[rule.key] + rule.suffix]
      else rest
  }
}
