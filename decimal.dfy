/** Decimal rendering of integers (JavaScript template literals) and the two ways the client
    reads them back: an exact decimal literal, and `parseInt(s, 10)`. */
module Decimal {
  import opened Types
  import opened Text

  predicate IsDigit(c: char) {
    '0' <= c <= '9'
  }

  predicate AllDigits(s: string) {
    forall i :: 0 <= i < |s| ==> IsDigit(s[i])
  }

  function DigitChar(d: nat): (c: char)
    requires d < 10
    ensures IsDigit(c) && c as int - '0' as int == d
  {
    ('0' as int + d) as char
  }

  /** The value of a string of decimal digits (0 for the empty string). */
  function DigitsValue(s: string): nat
    requires AllDigits(s)
  {
    if s == [] then 0 else DigitsValue(s[..|s| - 1]) * 10 + (s[|s| - 1] as int - '0' as int)
  }

  /** `${n}` for a non-negative integer: its shortest decimal digits. */
  function NatToString(n: nat): (s: string)
    ensures |s| > 0 && AllDigits(s)
    ensures n < 10 <==> |s| == 1
    decreases n
  {
    if n < 10 then [DigitChar(n)] else NatToString(n / 10) + [DigitChar(n % 10)]
  }

  /** Reading the digits back gives the number. */
  lemma {:induction false} NatToStringValue(n: nat)
    ensures DigitsValue(NatToString(n)) == n
    decreases n
  {
    if n >= 10 {
      var s := NatToString(n);
      assert s[..|s| - 1] == NatToString(n / 10);
      NatToStringValue(n / 10);
    }
  }

  /** `${i}` for any integer: a `-` before the digits of a negative number. */
  function IntToString(i: int): (s: string)
    ensures |s| > 0
    ensures i < 0 <==> s[0] == '-'
    ensures forall k :: 0 < k < |s| ==> IsDigit(s[k])
  {
    if i < 0 then "-" + NatToString(-i) else NatToString(i)
  }

  /** An exact decimal literal: an optional `-` and at least one digit, nothing else. */
  function ParseDecimal(s: string): (r: Option<int>)
    ensures r.Some? ==> |s| > 0
  {
    if |s| > 0 && s[0] == '-' then
      if |s| > 1 && AllDigits(s[1..]) then Some(-(DigitsValue(s[1..]) as int)) else None
    else if |s| > 0 && AllDigits(s) then Some(DigitsValue(s))
    else None
  }

  /** A non-negative integer's digits parse back to it. */
  lemma ParseNatRoundTrip(n: nat)
    ensures ParseDecimal(NatToString(n)) == Some(n)
  {
    var s := NatToString(n);
    assert s[0] != '-' by { assert IsDigit(s[0]); }
    NatToStringValue(n);
  }

  /** A negative integer's `-` and digits parse back to it. */
  lemma ParseNegativeRoundTrip(n: nat)
    requires n > 0
    ensures ParseDecimal("-" + NatToString(n)) == Some(-(n as int))
  {
    var s := "-" + NatToString(n);
    assert s[1..] == NatToString(n);
    NatToStringValue(n);
  }

  /** Rendering an integer and parsing the literal back is the identity. */
  lemma ParseDecimalRoundTrip(i: int)
    ensures ParseDecimal(IntToString(i)) == Some(i)
  {
    if i < 0 {
      ParseNegativeRoundTrip(-i);
    } else {
      ParseNatRoundTrip(i);
    }
  }

  /** The length of the longest all-digit prefix of `s`. */
  function DigitPrefixLength(s: string): (k: nat)
    ensures k <= |s| && AllDigits(s[..k])
    ensures k < |s| ==> !IsDigit(s[k])
  {
    if |s| > 0 && IsDigit(s[0]) then
      var k := 1 + DigitPrefixLength(s[1..]);
      assert s[..k] == [s[0]] + s[1..][..k - 1];
      k
    else 0
  }

  /** An optional sign, then the longest run of digits; `None` when there are no digits. */
  function ParseSigned(t: string): (r: Option<int>)
    ensures t == [] || !(IsDigit(t[0]) || t[0] == '-' || t[0] == '+') ==> r.None?
    ensures |t| > 0 && IsDigit(t[0]) ==> r.Some? && r.value >= 0
    ensures r.Some? && r.value < 0 ==> t[0] == '-'
  {
    var signed := |t| > 0 && (t[0] == '-' || t[0] == '+');
    var u := if signed then t[1..] else t;
    var k := DigitPrefixLength(u);
    if k == 0 then None
    else if signed && t[0] == '-' then Some(-(DigitsValue(u[..k]) as int))
    else Some(DigitsValue(u[..k]))
  }

  /** `parseInt(s, 10)`: leading white space is skipped, then an optional sign, then the longest
      run of digits; `None` stands for `NaN` (no digits at all). */
  function JsParseInt(s: string): (r: Option<int>)
    ensures IsBlank(s) ==> r.None?
    ensures |s| > 0 && IsDigit(s[0]) ==> r.Some? && r.value >= 0
  {
    ParseSigned(TrimStart(s))
  }

  /** An optional sign, digits and then a non-digit read as the value of those digits, negated
      after `-`. */
  lemma {:induction false} ParseSignedOfDigits(sign: string, d: string, rest: string)
    requires sign == "" || sign == "+" || sign == "-"
    requires |d| > 0 && AllDigits(d)
    requires rest == [] || !IsDigit(rest[0])
    ensures ParseSigned(sign + d + rest) == Some(if sign == "-" then -(DigitsValue(d) as int) else DigitsValue(d))
  {
    var t, u := sign + d + rest, d + rest;
    assert t[0] == if sign == "" then d[0] else sign[0];
    assert (if sign == "" then t else t[1..]) == u;
    DigitPrefixOfDigits(d, rest);
    assert u[..|d|] == d;
  }

  /** `parseInt` of white space, an optional sign, digits and then a non-digit is the value of
      those digits, negated after `-`: `"+5"` gives 5 and `" 007"` gives 7. */
  lemma {:induction false} JsParseIntOfDigits(w: string, sign: string, d: string, rest: string)
    requires IsBlank(w)
    requires sign == "" || sign == "+" || sign == "-"
    requires |d| > 0 && AllDigits(d)
    requires rest == [] || !IsDigit(rest[0])
    ensures JsParseInt(w + sign + d + rest) == Some(if sign == "-" then -(DigitsValue(d) as int) else DigitsValue(d))
  {
    var t := sign + d + rest;
    assert w + sign + d + rest == w + t;
    assert t[0] == if sign == "" then d[0] else sign[0];
    TrimStartBlank(w, t);
    ParseSignedOfDigits(sign, d, rest);
  }

  lemma {:induction false} DigitPrefixOfDigits(d: string, rest: string)
    requires AllDigits(d)
    requires rest == [] || !IsDigit(rest[0])
    ensures DigitPrefixLength(d + rest) == |d|
    decreases |d|
  {
    if d != [] {
      assert (d + rest)[1..] == d[1..] + rest;
      DigitPrefixOfDigits(d[1..], rest);
    }
  }

  /** The digits of `n` followed by a non-digit: the longest digit run is exactly them. */
  lemma DigitRunValue(n: nat, rest: string)
    requires rest == [] || !IsDigit(rest[0])
    ensures DigitPrefixLength(NatToString(n) + rest) == |NatToString(n)|
    ensures DigitsValue((NatToString(n) + rest)[..|NatToString(n)|]) == n
  {
    var d := NatToString(n);
    DigitPrefixOfDigits(d, rest);
    assert (d + rest)[..|d|] == d;
    NatToStringValue(n);
  }

  lemma ParseSignedNat(n: nat, rest: string)
    requires rest == [] || !IsDigit(rest[0])
    ensures ParseSigned(NatToString(n) + rest) == Some(n)
  {
    var t := NatToString(n) + rest;
    assert IsDigit(t[0]);
    DigitRunValue(n, rest);
  }

  lemma ParseSignedNegative(n: nat, rest: string)
    requires n > 0
    requires rest == [] || !IsDigit(rest[0])
    ensures ParseSigned("-" + NatToString(n) + rest) == Some(-(n as int))
  {
    var t := "-" + NatToString(n) + rest;
    assert t[1..] == NatToString(n) + rest;
    DigitRunValue(n, rest);
  }

  /** `parseInt` reads a rendered integer back, whatever non-digit text follows it. */
  lemma JsParseIntRoundTrip(i: int, rest: string)
    requires rest == [] || !IsDigit(rest[0])
    ensures JsParseInt(IntToString(i) + rest) == Some(i)
  {
    var s := IntToString(i) + rest;
    assert !IsSpace(s[0]);
    assert TrimStart(s) == s;
    if i < 0 {
      ParseSignedNegative(-i, rest);
    } else {
      ParseSignedNat(i, rest);
    }
  }
}
