/** The two regular expressions the forms use, as hand-written recognisers, each proved equal to
    a direct reading of its pattern. */
module Patterns {
  import opened Text

  /** `[^\s@]` */
  predicate EmailChar(c: char) {
    !IsSpace(c) && c != '@'
  }

  /** `[^\s@]+` */
  predicate EmailPart(s: string) {
    |s| > 0 && forall i :: 0 <= i < |s| ==> EmailChar(s[i])
  }

  /** A `.` with at least one character on either side. */
  predicate HasInnerDot(d: string) {
    exists k :: 0 < k < |d| - 1 && d[k] == '.'
  }

  /** `/^[^\s@]+@[^\s@]+\.[^\s@]+$/` read literally: some `@` at `i` and `.` at `j` cut the text
      into three non-empty runs without white space or `@`. */
  ghost predicate EmailShape(s: string) {
    exists i, j :: 0 < i && i + 1 < j && j + 1 < |s| && s[i] == '@' && s[j] == '.'
      && EmailPart(s[..i]) && EmailPart(s[i + 1..j]) && EmailPart(s[j + 1..])
  }

  /** The email recogniser: split at the first `@`; the rest must be free of white space and
      `@` and hold a dot that is neither first nor last. */
  function IsEmail(s: string): (r: bool)
    ensures r ==> NoSpaces(s)
    ensures r ==> exists i :: 0 <= i < |s| && s[i] == '@'
  {
    var i := IndexOf(s, '@');
    if i <= 0 then false
    else
      var r := EmailPart(s[..i]) && EmailPart(s[i + 1..]) && HasInnerDot(s[i + 1..]);
      assert r ==> NoSpaces(s) by {
        if r {
          forall k | 0 <= k < |s|
            ensures !IsSpace(s[k])
          {
            if k < i { assert s[..i][k] == s[k]; }
            else if k > i { assert s[i + 1..][k - i - 1] == s[k]; }
          }
        }
      }
      r
  }

  lemma EmailHasShape(s: string)
    requires IsEmail(s)
    ensures EmailShape(s)
  {
    var i := IndexOf(s, '@');
    var d := s[i + 1..];
    var k :| 0 < k < |d| - 1 && d[k] == '.';
    var j := i + 1 + k;
    assert s[i + 1..j] == d[..k];
    assert s[j + 1..] == d[k + 1..];
    assert EmailPart(d[..k]) && EmailPart(d[k + 1..]);
    assert s[j] == '.';
  }

  lemma ShapeIsEmail(s: string, i: int, j: int)
    requires 0 < i && i + 1 < j && j + 1 < |s| && s[i] == '@' && s[j] == '.'
    requires EmailPart(s[..i]) && EmailPart(s[i + 1..j]) && EmailPart(s[j + 1..])
    ensures IsEmail(s)
  {
    assert forall k :: 0 <= k < i ==> s[k] == s[..i][k];
    assert IndexOf(s, '@') == i;
    var d := s[i + 1..];
    forall k | 0 <= k < |d|
      ensures EmailChar(d[k])
    {
      if k < j - i - 1 { assert d[k] == s[i + 1..j][k]; }
      else if k > j - i - 1 { assert d[k] == s[j + 1..][k - (j - i)]; }
    }
    assert d[j - i - 1] == '.';
  }

  /** The recogniser accepts exactly the texts the pattern matches. */
  lemma IsEmailMatchesPattern(s: string)
    ensures IsEmail(s) <==> EmailShape(s)
  {
    if IsEmail(s) {
      EmailHasShape(s);
    }
    if EmailShape(s) {
      var i, j :| 0 < i && i + 1 < j && j + 1 < |s| && s[i] == '@' && s[j] == '.'
        && EmailPart(s[..i]) && EmailPart(s[i + 1..j]) && EmailPart(s[j + 1..]);
      ShapeIsEmail(s, i, j);
    }
  }

  /** `[\w-]`: ASCII letters and digits, `_` and `-`. */
  predicate WordChar(c: char) {
    ('a' <= c <= 'z') || ('A' <= c <= 'Z') || ('0' <= c <= '9') || c == '_' || c == '-'
  }

  /** `[\w-./?%&=]` */
  predicate PathChar(c: char) {
    WordChar(c) || c == '.' || c == '/' || c == '?' || c == '%' || c == '&' || c == '='
  }

  /** `[\w-]+` */
  predicate Word(s: string) {
    |s| > 0 && forall i :: 0 <= i < |s| ==> WordChar(s[i])
  }

  /** `([\w-]+\.)+[\w-]+` read as its grammar: a word and a dot, followed by either the last
      word or another such host. */
  ghost predicate HostShape(h: string)
    decreases |h|
  {
    exists i :: 0 < i < |h| - 1 && h[i] == '.' && Word(h[..i]) && (Word(h[i + 1..]) || HostShape(h[i + 1..]))
  }

  predicate HostChars(h: string) {
    forall k :: 0 <= k < |h| ==> WordChar(h[k]) || h[k] == '.'
  }

  predicate NoDoubleDot(h: string) {
    forall k :: 0 <= k < |h| - 1 ==> h[k] != '.' || h[k + 1] != '.'
  }

  /** The host recogniser, character by character: word characters and dots only, at least one
      dot, none first or last, and no two in a row. */
  predicate HostOk(h: string) {
    |h| > 0 && h[0] != '.' && h[|h| - 1] != '.' && '.' in h && HostChars(h) && NoDoubleDot(h)
  }

  /** The text before the first dot of a host is a word. */
  lemma WordBeforeFirstDot(h: string, i: int)
    requires HostChars(h) && 0 < i <= |h|
    requires forall k :: 0 <= k < i ==> h[k] != '.'
    ensures Word(h[..i])
  {
    forall k | 0 <= k < i
      ensures WordChar(h[..i][k])
    {
      assert h[..i][k] == h[k];
    }
  }

  /** What follows a host's first dot is a word or again a host. */
  lemma HostTail(h: string, i: int)
    requires HostOk(h) && 0 < i < |h| - 1 && h[i] == '.'
    ensures Word(h[i + 1..]) || HostOk(h[i + 1..])
  {
    var t := h[i + 1..];
    assert forall k :: 0 <= k < |t| ==> t[k] == h[i + 1 + k];
    if '.' in t {
      assert t[0] == h[i + 1] != '.';
      assert t[|t| - 1] == h[|h| - 1];
    }
  }

  /** Cutting a host at its first dot leaves a word, then the last word or a shorter host. */
  lemma HostSplit(h: string)
    requires HostOk(h)
    ensures var i := IndexOf(h, '.');
      0 < i < |h| - 1 && Word(h[..i]) && (Word(h[i + 1..]) || HostOk(h[i + 1..]))
  {
    var i := IndexOf(h, '.');
    WordBeforeFirstDot(h, i);
    HostTail(h, i);
  }

  /** A word, a dot and then the last word or another host make a host. */
  lemma HostJoin(h: string, i: int)
    requires 0 < i < |h| - 1 && h[i] == '.' && Word(h[..i])
    requires Word(h[i + 1..]) || HostOk(h[i + 1..])
    ensures HostOk(h)
  {
    var t := h[i + 1..];
    assert forall k :: 0 <= k < i ==> h[k] == h[..i][k];
    assert forall k :: i < k < |h| ==> h[k] == t[k - i - 1];
    assert t[0] != '.';
    assert HostChars(h);
  }

  lemma {:induction false} HostOkHasShape(h: string)
    requires HostOk(h)
    ensures HostShape(h)
    decreases |h|
  {
    HostSplit(h);
    var i := IndexOf(h, '.');
    if !Word(h[i + 1..]) {
      HostOkHasShape(h[i + 1..]);
    }
  }

  lemma {:induction false} HostShapeIsOk(h: string)
    requires HostShape(h)
    ensures HostOk(h)
    decreases |h|
  {
    var i :| 0 < i < |h| - 1 && h[i] == '.' && Word(h[..i]) && (Word(h[i + 1..]) || HostShape(h[i + 1..]));
    if !Word(h[i + 1..]) {
      HostShapeIsOk(h[i + 1..]);
    }
    HostJoin(h, i);
  }

  lemma HostOkMatchesPattern(h: string)
    ensures HostOk(h) <==> HostShape(h)
  {
    if HostOk(h) { HostOkHasShape(h); }
    if HostShape(h) { HostShapeIsOk(h); }
  }

  /** `p` starts `s` when letter case is ignored (`p` is lower case). */
  predicate PrefixIgnoringCase(s: string, p: string) {
    |p| <= |s| && forall j :: 0 <= j < |p| ==> AsciiLower(s[j]) == p[j]
  }

  /** The length of a leading `http://` or `https://`, in any letter case, or 0. */
  function SchemeLength(s: string): (n: nat)
    ensures n <= |s|
    ensures n == 0 || n == 7 || n == 8
  {
    if PrefixIgnoringCase(s, "https://") then 8
    else if PrefixIgnoringCase(s, "http://") then 7
    else 0
  }

  /** `(https?:\/\/)?` under the `i` flag. */
  ghost predicate Scheme(t: string) {
    t == "" || (|t| == 7 && PrefixIgnoringCase(t, "http://")) || (|t| == 8 && PrefixIgnoringCase(t, "https://"))
  }

  /** `[\w-./?%&=]*` */
  predicate PathChars(p: string) {
    forall j :: 0 <= j < |p| ==> PathChar(p[j])
  }

  /** A scheme ending at `a`, a host from `a` to `b`, then either the end or a `/` and path
      characters. */
  ghost predicate UrlAt(s: string, a: int, b: int) {
    0 <= a <= b <= |s| && Scheme(s[..a]) && HostShape(s[a..b])
    && (b == |s| || (s[b] == '/' && PathChars(s[b + 1..])))
  }

  /** `/^(https?:\/\/)?([\w-]+\.)+[\w-]+(\/[\w-./?%&=]*)?$/i` read literally. */
  ghost predicate UrlShape(s: string) {
    exists a, b :: UrlAt(s, a, b)
  }

  /** The end of the host that starts at `n`: the first `/` from `n` on, or the end of `s`. */
  function HostEnd(s: string, n: nat): (b: nat)
    requires n <= |s|
    ensures n <= b <= |s| && (b == |s| || s[b] == '/')
    ensures forall j :: n <= j < b ==> s[j] != '/'
    decreases |s| - n
  {
    if n == |s| || s[n] == '/' then n else HostEnd(s, n + 1)
  }

  /** The avatar URL recogniser: strip the scheme, cut at the first `/`, check the host, then
      the path characters. */
  function IsAvatarUrl(s: string): (ok: bool)
    ensures ok ==> '.' in s && forall k :: 0 <= k < |s| ==> UrlChar(s[k])
  {
    var n := SchemeLength(s);
    var b := HostEnd(s, n);
    var ok := HostOk(s[n..b]) && (b == |s| || PathChars(s[b + 1..]));
    assert ok ==> '.' in s && forall k :: 0 <= k < |s| ==> UrlChar(s[k]) by {
      if ok {
        var h := s[n..b];
        var i :| 0 <= i < |h| && h[i] == '.';
        assert s[n + i] == '.';
        forall k | 0 <= k < |s|
          ensures UrlChar(s[k])
        {
          if k < n {
            SchemeChar(s, n, k);
          } else if k < b {
            assert s[k] == h[k - n];
          } else if k > b {
            assert s[k] == s[b + 1..][k - b - 1];
          }
        }
      }
    }
    ok
  }

  /** A character some accepted URL may hold: a path character or the scheme's `:`. */
  predicate UrlChar(c: char) {
    PathChar(c) || c == ':'
  }

  /** Every character of a recognised scheme is a letter, `:` or `/`. */
  lemma SchemeChar(s: string, n: nat, k: nat)
    requires n == SchemeLength(s) && k < n
    ensures UrlChar(s[k])
  {
    var p := if n == 8 then "https://" else "http://";
    assert AsciiLower(s[k]) == p[k];
    if !IsAsciiUpper(s[k]) {
      assert s[k] == p[k];
      assert p[k] in "https://";
    }
  }

  /** A leading `http://` or `https://` (`n` = 7 or 8) has its colon at `n - 3`, after letters. */
  lemma SchemeColon(s: string, n: nat)
    requires n == 7 || n == 8
    requires PrefixIgnoringCase(s, if n == 8 then "https://" else "http://")
    ensures s[n - 3] == ':'
    ensures forall j :: 0 <= j < n - 3 ==> s[j] != '/' && s[j] != ':'
  {
  }

  /** The recognised scheme is a scheme of the pattern. */
  lemma SchemeLengthIsScheme(s: string)
    ensures Scheme(s[..SchemeLength(s)])
  {
    var n := SchemeLength(s);
    assert forall j :: 0 <= j < n ==> s[..n][j] == s[j];
  }

  /** A recognised URL has the shape of the pattern. */
  lemma AvatarUrlHasShape(s: string)
    requires IsAvatarUrl(s)
    ensures UrlShape(s)
  {
    var n := SchemeLength(s);
    var b := HostEnd(s, n);
    SchemeLengthIsScheme(s);
    HostOkHasShape(s[n..b]);
    assert UrlAt(s, n, b);
  }

  /** A scheme ending at `a` followed by a host ending at `b` forces `a` to be the recognised
      scheme length. */
  lemma ShapeSchemeLength(s: string, a: int, b: int)
    requires 0 <= a < b <= |s| && Scheme(s[..a]) && HostOk(s[a..b])
    requires b == |s| || s[b] == '/'
    ensures a == SchemeLength(s)
  {
    var h := s[a..b];
    assert forall j :: a <= j < b ==> s[j] == h[j - a];
    if a == 0 {
      if PrefixIgnoringCase(s, "https://") {
        SchemeColon(s, 8);
      } else if PrefixIgnoringCase(s, "http://") {
        SchemeColon(s, 7);
      }
    } else {
      assert forall j :: 0 <= j < a ==> s[..a][j] == s[j];
      if a == 7 {
        SchemeColon(s, 7);
      }
    }
  }

  /** A host is cut at the first `/` after it. */
  lemma HostEndsAtFirstSlash(s: string, a: nat, b: nat)
    requires a <= b <= |s| && (b == |s| || s[b] == '/')
    requires forall j :: a <= j < b ==> s[j] != '/'
    ensures HostEnd(s, a) == b
    decreases b - a
  {
    if a < b {
      HostEndsAtFirstSlash(s, a + 1, b);
    }
  }

  /** A text with the shape of the pattern is recognised. */
  lemma ShapeIsAvatarUrl(s: string, a: int, b: int)
    requires 0 <= a < b <= |s| && Scheme(s[..a]) && HostOk(s[a..b])
    requires b == |s| || (s[b] == '/' && PathChars(s[b + 1..]))
    ensures IsAvatarUrl(s)
  {
    ShapeSchemeLength(s, a, b);
    assert forall j :: a <= j < b ==> s[j] == s[a..b][j - a];
    HostEndsAtFirstSlash(s, a, b);
  }

  lemma IsAvatarUrlMatchesPattern(s: string)
    ensures IsAvatarUrl(s) <==> UrlShape(s)
  {
    if IsAvatarUrl(s) {
      AvatarUrlHasShape(s);
    }
    if UrlShape(s) {
      var a, b :| UrlAt(s, a, b);
      HostShapeIsOk(s[a..b]);
      ShapeIsAvatarUrl(s, a, b);
    }
  }
}
