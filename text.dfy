/** Character classes and string helpers the client borrows from JavaScript. */
module Text {

  /** The characters JavaScript's `\s`, `String.prototype.trim` and `parseInt` treat as white space
      (ECMAScript WhiteSpace and LineTerminator). */
  predicate IsSpace(c: char) {
    c == '\t' || c == '\n' || c == '\U{000B}' || c == '\U{000C}' || c == '\r' || c == ' '
    || c == '\U{00A0}' || c == '\U{1680}' || ('\U{2000}' <= c <= '\U{200A}')
    || c == '\U{2028}' || c == '\U{2029}' || c == '\U{202F}' || c == '\U{205F}'
    || c == '\U{3000}' || c == '\U{FEFF}'
  }

  /** `/^\S*$/.test(s)`: no white space anywhere. */
  predicate NoSpaces(s: string) {
    forall i :: 0 <= i < |s| ==> !IsSpace(s[i])
  }

  /** Every character is white space (the empty string included). */
  predicate IsBlank(s: string) {
    forall i :: 0 <= i < |s| ==> IsSpace(s[i])
  }

  /** Drops the leading white space. */
  function TrimStart(s: string): (r: string)
    ensures |r| <= |s| && r == s[|s| - |r|..]
    ensures r == [] || !IsSpace(r[0])
    ensures IsBlank(s[..|s| - |r|])
    ensures |s| > 0 && IsSpace(s[0]) ==> |r| < |s|
  {
    if |s| > 0 && IsSpace(s[0]) then TrimStart(s[1..]) else s
  }

  /** A blank run is trimmed away up to the text that follows it. */
  lemma {:induction false} TrimStartBlank(w: string, b: string)
    requires IsBlank(w)
    requires b == [] || !IsSpace(b[0])
    ensures TrimStart(w + b) == b
    decreases |w|
  {
    if w == [] {
      assert w + b == b;
    } else {
      assert (w + b)[0] == w[0];
      assert (w + b)[1..] == w[1..] + b;
      TrimStartBlank(w[1..], b);
    }
  }

  /** Drops the trailing white space. */
  function TrimEnd(s: string): (r: string)
    ensures |r| <= |s| && r == s[..|r|]
    ensures r == [] || !IsSpace(r[|r| - 1])
    ensures IsBlank(s[|r|..])
  {
    if |s| > 0 && IsSpace(s[|s| - 1]) then
      var r := TrimEnd(s[..|s| - 1]);
      assert s[|r|..] == s[..|s| - 1][|r|..] + [s[|s| - 1]];
      r
    else s
  }

  /** `s.trim()`: empty exactly when `s` is blank, and otherwise a slice of `s` that starts and
      ends with a non-space character. */
  function Trim(s: string): (r: string)
    ensures r == "" <==> IsBlank(s)
    ensures r != "" ==> !IsSpace(r[0]) && !IsSpace(r[|r| - 1])
  {
    TrimEnd(TrimStart(s))
  }

  predicate IsAsciiUpper(c: char) {
    'A' <= c <= 'Z'
  }

  /** `toLowerCase` on one character, restricted to ASCII. */
  function AsciiLower(c: char): (r: char)
    ensures !IsAsciiUpper(r)
    ensures IsAsciiUpper(c) ==> r as int == c as int + 32
    ensures !IsAsciiUpper(c) ==> r == c
  {
    if IsAsciiUpper(c) then (c as int + 32) as char else c
  }

  predicate NoAsciiUpper(s: string) {
    forall i :: 0 <= i < |s| ==> !IsAsciiUpper(s[i])
  }

  /** `s.toLowerCase()` for ASCII letters. */
  function LowerAscii(s: string): (r: string)
    ensures |r| == |s| && NoAsciiUpper(r)
    ensures forall i :: 0 <= i < |s| ==> r[i] == AsciiLower(s[i])
  {
    seq(|s|, i requires 0 <= i < |s| => AsciiLower(s[i]))
  }

  /** `s.replace(/\s+/g, "-")`: every maximal run of white space becomes one `-`. */
  function DashRuns(s: string): (r: string)
    ensures r == [] <==> s == []
  {
    DashRunsFrom(s, false)
  }

  /** The replacement scanned left to right; `inRun` says the previous character was white space,
      whose run has already been given its `-`. */
  function DashRunsFrom(s: string, inRun: bool): string
    decreases |s|
  {
    if s == [] then [] else DashOf(s[0], inRun) + DashRunsFrom(s[1..], IsSpace(s[0]))
  }

  /** What one character contributes: itself, the `-` that opens a run, or nothing inside a run. */
  function DashOf(c: char, inRun: bool): string {
    if !IsSpace(c) then [c] else if inRun then [] else "-"
  }

  /** Whether the scan is inside a white-space run after reading `a`. */
  function EndsInRun(a: string, inRun: bool): bool {
    if a == [] then inRun else IsSpace(a[|a| - 1])
  }

  /** The scan of `a + c` is the scan of `a` followed by the scan of `c` in the state `a` leaves. */
  lemma {:induction false} DashRunsFromAppend(a: string, c: string, inRun: bool)
    ensures DashRunsFrom(a + c, inRun) == DashRunsFrom(a, inRun) + DashRunsFrom(c, EndsInRun(a, inRun))
    decreases |a|
  {
    if a == [] {
      assert a + c == c;
    } else {
      DashRunsFromAppend(a[1..], c, IsSpace(a[0]));
      DashRunsFromAppendStep(a, c, inRun);
    }
  }

  /** The step of `DashRunsFromAppend` over the first character of `a`. */
  lemma {:induction false} DashRunsFromAppendStep(a: string, c: string, inRun: bool)
    requires a != []
    requires DashRunsFrom(a[1..] + c, IsSpace(a[0]))
      == DashRunsFrom(a[1..], IsSpace(a[0])) + DashRunsFrom(c, EndsInRun(a[1..], IsSpace(a[0])))
    ensures DashRunsFrom(a + c, inRun) == DashRunsFrom(a, inRun) + DashRunsFrom(c, EndsInRun(a, inRun))
  {
    var next := IsSpace(a[0]);
    var d, x, y := DashOf(a[0], inRun), DashRunsFrom(a[1..], next), DashRunsFrom(c, EndsInRun(a, inRun));
    assert EndsInRun(a[1..], next) == EndsInRun(a, inRun) by {
      assert a[1..] == [] || a[1..][|a[1..]| - 1] == a[|a| - 1];
    }
    assert DashRunsFrom(a + c, inRun) == d + DashRunsFrom(a[1..] + c, next) by {
      ConsSplit(a, c);
    }
    AppendAssoc(d, x, y);
  }

  lemma {:induction false} ConsSplit(a: string, c: string)
    requires a != []
    ensures (a + c)[0] == a[0] && (a + c)[1..] == a[1..] + c
  {
  }

  lemma {:induction false} AppendAssoc(d: string, x: string, y: string)
    ensures d + (x + y) == (d + x) + y
  {
  }

  /** The replacement leaves no white space, adds no upper-case letter and never lengthens the
      text. */
  lemma {:induction false} DashRunsShape(s: string)
    ensures NoSpaces(DashRuns(s))
    ensures NoAsciiUpper(s) ==> NoAsciiUpper(DashRuns(s))
    ensures |DashRuns(s)| <= |s|
  {
    DashRunsFromShape(s, false);
  }

  lemma {:induction false} DashRunsFromShape(s: string, inRun: bool)
    ensures NoSpaces(DashRunsFrom(s, inRun))
    ensures NoAsciiUpper(s) ==> NoAsciiUpper(DashRunsFrom(s, inRun))
    ensures |DashRunsFrom(s, inRun)| <= |s|
    decreases |s|
  {
    if s != [] {
      DashRunsFromShape(s[1..], IsSpace(s[0]));
      assert NoAsciiUpper(s) ==> NoAsciiUpper(s[1..]) by {
        if NoAsciiUpper(s) {
          forall k | 0 <= k < |s[1..]|
            ensures !IsAsciiUpper(s[1..][k])
          {
            assert s[1..][k] == s[k + 1];
          }
        }
      }
    }
  }

  /** A string without white space passes through the replacement unchanged. */
  lemma {:induction false} DashRunsKeepsSpaceless(s: string)
    requires NoSpaces(s)
    ensures DashRuns(s) == s
  {
    DashRunsFromKeepsSpaceless(s, false);
  }

  lemma {:induction false} DashRunsFromKeepsSpaceless(s: string, inRun: bool)
    requires NoSpaces(s)
    ensures DashRunsFrom(s, inRun) == s
    decreases |s|
  {
    if s != [] {
      DashRunsFromKeepsSpaceless(s[1..], false);
    }
  }

  /** Inside a run, further white space adds nothing. */
  lemma {:induction false} DashRunsFromBlank(w: string)
    requires IsBlank(w)
    ensures DashRunsFrom(w, true) == []
    decreases |w|
  {
    if w != [] {
      DashRunsFromBlank(w[1..]);
    }
  }

  /** A non-empty run of white space scanned from outside a run gives one `-` and ends inside
      the run. */
  lemma {:induction false} DashRunsFromOfRun(w: string)
    requires |w| > 0 && IsBlank(w)
    ensures DashRunsFrom(w, false) == "-" && EndsInRun(w, false)
  {
    DashRunsFromBlank(w[1..]);
  }

  /** Text that does not open with white space is scanned alike inside and outside a run. */
  lemma {:induction false} DashRunsFromAfterRun(b: string)
    requires b == [] || !IsSpace(b[0])
    ensures DashRunsFrom(b, true) == DashRunsFrom(b, false)
  {
  }

  /** After text that does not end in white space, the replacement starts afresh. */
  lemma {:induction false} DashRunsAfterNonSpace(a: string, c: string)
    requires a == [] || !IsSpace(a[|a| - 1])
    ensures DashRuns(a + c) == DashRuns(a) + DashRunsFrom(c, false)
  {
    DashRunsFromAppend(a, c, false);
  }

  /** A non-empty white-space run followed by text that does not start with white space gives
      one `-` and then the replacement of that text. */
  lemma {:induction false} DashRunsFromRunThen(w: string, b: string)
    requires |w| > 0 && IsBlank(w)
    requires b == [] || !IsSpace(b[0])
    ensures DashRunsFrom(w + b, false) == "-" + DashRuns(b)
  {
    DashRunsFromAppend(w, b, false);
    DashRunsFromOfRun(w);
    DashRunsFromAfterRun(b);
  }

  /** A whole run of white space, between text that does not end in one and text that does not
      start with one, becomes exactly one `-`. */
  lemma {:induction false} DashRunsCollapsesRun(a: string, w: string, b: string)
    requires a == [] || !IsSpace(a[|a| - 1])
    requires |w| > 0 && IsBlank(w)
    requires b == [] || !IsSpace(b[0])
    ensures DashRuns(a + w + b) == DashRuns(a) + "-" + DashRuns(b)
  {
    assert a + w + b == a + (w + b);
    DashRunsAfterNonSpace(a, w + b);
    DashRunsFromRunThen(w, b);
    AppendAssoc(DashRuns(a), "-", DashRuns(b));
  }

  /** Text without white space is copied as it is, and the replacement goes on after it. */
  lemma {:induction false} DashRunsAfterSpaceless(a: string, b: string)
    requires NoSpaces(a)
    ensures DashRuns(a + b) == a + DashRuns(b)
  {
    DashRunsFromAppend(a, b, false);
    DashRunsFromKeepsSpaceless(a, false);
    assert !EndsInRun(a, false);
  }

  /** Replacing white-space runs twice is the same as once. */
  lemma DashRunsIdempotent(s: string)
    ensures DashRuns(DashRuns(s)) == DashRuns(s)
  {
    DashRunsShape(s);
    DashRunsKeepsSpaceless(DashRuns(s));
  }

  predicate StartsWith(s: string, p: string) {
    |p| <= |s| && s[..|p|] == p
  }

  /** The index of the first `c` in `s`, or -1. */
  function IndexOf(s: string, c: char): (k: int)
    ensures -1 <= k < |s|
    ensures k >= 0 ==> s[k] == c && forall j :: 0 <= j < k ==> s[j] != c
    ensures k == -1 ==> forall j :: 0 <= j < |s| ==> s[j] != c
  {
    if s == [] then -1
    else if s[0] == c then 0
    else var k := IndexOf(s[1..], c); if k == -1 then -1 else k + 1
  }
}
