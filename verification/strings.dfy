/** The JavaScript string operations the shop's code uses: the `\s`
    character class and `trim`, the `\d` class, ASCII case mapping for
    `toUpperCase`/`toLowerCase`, `includes`, and integer-to-decimal
    conversion in template literals. */
module Strings {
  import opened Sequences

  /** White space and line terminators as JavaScript defines them: the
      characters `\s` matches and `trim` removes. */
  predicate IsWhitespace(c: char)
  {
    || c == '\t' || c == '\n' || c == '\U{000B}' || c == '\U{000C}' || c == '\r'
    || c == ' ' || c == '\U{00A0}' || c == '\U{1680}'
    || ('\U{2000}' <= c <= '\U{200A}')
    || c == '\U{2028}' || c == '\U{2029}' || c == '\U{202F}' || c == '\U{205F}'
    || c == '\U{3000}' || c == '\U{FEFF}'
  }

  /** The regular-expression class `\d`: ASCII digits only. */
  predicate IsDigit(c: char)
  {
    '0' <= c <= '9'
  }

  predicate IsVisible(c: char)
  {
    !IsWhitespace(c)
  }

  /** `s.replace(/\s/g, '')`. */
  function RemoveWhitespace(s: string): (r: string)
    ensures forall k :: 0 <= k < |r| ==> !IsWhitespace(r[k])
    ensures forall k :: 0 <= k < |s| && !IsWhitespace(s[k]) ==> s[k] in r
    ensures IsSubsequence(r, s)
  {
    Filter(s, IsVisible)
  }

  /** `s.replace(/\D/g, '')`. */
  function KeepDigits(s: string): (r: string)
    ensures forall k :: 0 <= k < |r| ==> IsDigit(r[k])
    ensures forall k :: 0 <= k < |s| && IsDigit(s[k]) ==> s[k] in r
    ensures IsSubsequence(r, s)
  {
    Filter(s, IsDigit)
  }

  /** `trimStart`: drops the leading white space and nothing else. */
  function TrimStart(s: string): (r: string)
    ensures |r| <= |s| && r == s[|s| - |r|..]
    ensures forall k :: 0 <= k < |s| - |r| ==> IsWhitespace(s[k])
    ensures r == [] || !IsWhitespace(r[0])
  {
    if s != [] && IsWhitespace(s[0]) then TrimStart(s[1..]) else s
  }

  /** `trimEnd`: drops the trailing white space and nothing else. */
  function TrimEnd(s: string): (r: string)
    ensures |r| <= |s| && r == s[..|r|]
    ensures forall k :: |r| <= k < |s| ==> IsWhitespace(s[k])
    ensures r == [] || !IsWhitespace(r[|r| - 1])
  {
    if s != [] && IsWhitespace(s[|s| - 1]) then TrimEnd(s[..|s| - 1]) else s
  }

  /** `trim`. */
  function Trim(s: string): (r: string)
  {
    TrimEnd(TrimStart(s))
  }

  /** Dropping leading white space is invisible once all white space is
      removed. */
  lemma RemoveWhitespaceIgnoresTrimStart(s: string)
    ensures RemoveWhitespace(TrimStart(s)) == RemoveWhitespace(s)
  {
    var t := TrimStart(s);
    var front := s[..|s| - |t|];
    assert s == front + t;
    forall k | 0 <= k < |front| ensures !IsVisible(front[k]) {
      assert front[k] == s[k];
    }
    FilterRejectsAll(front, IsVisible);
    FilterConcat(front, t, IsVisible);
  }

  /** Dropping trailing white space is invisible once all white space is
      removed. */
  lemma RemoveWhitespaceIgnoresTrimEnd(s: string)
    ensures RemoveWhitespace(TrimEnd(s)) == RemoveWhitespace(s)
  {
    var u := TrimEnd(s);
    var back := s[|u|..];
    assert s == u + back;
    forall k | 0 <= k < |back| ensures !IsVisible(back[k]) {
      assert back[k] == s[|u| + k];
    }
    FilterRejectsAll(back, IsVisible);
    FilterConcat(u, back, IsVisible);
  }

  /** Trimming removes only white space, so it is invisible once all white
      space is removed. */
  lemma RemoveWhitespaceIgnoresTrim(s: string)
    ensures RemoveWhitespace(Trim(s)) == RemoveWhitespace(s)
  {
    RemoveWhitespaceIgnoresTrimStart(s);
    RemoveWhitespaceIgnoresTrimEnd(TrimStart(s));
  }

  /** A space between two strings is removed with the rest of the white
      space. */
  lemma RemoveWhitespaceDropsSpace(a: string, b: string)
    ensures RemoveWhitespace(a + " " + b) == RemoveWhitespace(a) + RemoveWhitespace(b)
  {
    var space: string := " ";
    FilterRejectsAll(space, IsVisible);
    FilterConcat(a, space, IsVisible);
    FilterConcat(a + space, b, IsVisible);
  }

  /** Removing white space twice is removing it once. */
  lemma RemoveWhitespaceIdempotent(s: string)
    ensures RemoveWhitespace(RemoveWhitespace(s)) == RemoveWhitespace(s)
  {
    FilterKeepsAll(RemoveWhitespace(s), IsVisible);
  }

  /** A string of digits keeps all of itself. */
  lemma KeepDigitsOfDigits(s: string)
    requires forall k :: 0 <= k < |s| ==> IsDigit(s[k])
    ensures KeepDigits(s) == s
  {
    FilterKeepsAll(s, IsDigit);
  }

  /** A slash after a run of digits is dropped. */
  lemma KeepDigitsDropsTrailingSlash(a: string)
    requires forall k :: 0 <= k < |a| ==> IsDigit(a[k])
    ensures KeepDigits(a + "/") == a
  {
    var slash: string := "/";
    FilterKeepsAll(a, IsDigit);
    FilterRejectsAll(slash, IsDigit);
    FilterConcat(a, slash, IsDigit);
  }

  /** Between two runs of digits, only the separator is dropped. */
  lemma KeepDigitsDropsSlash(a: string, b: string)
    requires forall k :: 0 <= k < |a| ==> IsDigit(a[k])
    requires forall k :: 0 <= k < |b| ==> IsDigit(b[k])
    ensures KeepDigits(a + "/" + b) == a + b
  {
    KeepDigitsDropsTrailingSlash(a);
    FilterKeepsAll(b, IsDigit);
    FilterConcat(a + "/", b, IsDigit);
  }

  predicate IsLowerAscii(c: char)
  {
    'a' <= c <= 'z'
  }

  predicate IsUpperAscii(c: char)
  {
    'A' <= c <= 'Z'
  }

  function UpperChar(c: char): (r: char)
    ensures !IsLowerAscii(r)
    ensures !IsLowerAscii(c) ==> r == c
  {
    if IsLowerAscii(c) then (c as int - 32) as char else c
  }

  function LowerChar(c: char): (r: char)
    ensures !IsUpperAscii(r)
    ensures !IsUpperAscii(c) ==> r == c
  {
    if IsUpperAscii(c) then (c as int + 32) as char else c
  }

  /** `toUpperCase`, on the ASCII letters. */
  function ToUpper(s: string): (r: string)
    ensures |r| == |s|
    ensures forall k :: 0 <= k < |r| ==> !IsLowerAscii(r[k]) && UpperChar(s[k]) == r[k]
  {
    seq(|s|, k requires 0 <= k < |s| => UpperChar(s[k]))
  }

  /** `toLowerCase`, on the ASCII letters. */
  function ToLower(s: string): (r: string)
    ensures |r| == |s|
    ensures forall k :: 0 <= k < |r| ==> !IsUpperAscii(r[k]) && LowerChar(s[k]) == r[k]
  {
    seq(|s|, k requires 0 <= k < |s| => LowerChar(s[k]))
  }

  /** Two strings that differ at most in the case of their letters. */
  ghost predicate SameUpToCase(a: string, b: string)
  {
    |a| == |b| && forall k :: 0 <= k < |a| ==> UpperChar(a[k]) == UpperChar(b[k])
  }

  /** Two strings agree up to case exactly when they upper-case alike. */
  lemma SameUpToCaseIffSameUpper(a: string, b: string)
    ensures SameUpToCase(a, b) <==> ToUpper(a) == ToUpper(b)
  {
    if ToUpper(a) == ToUpper(b) {
      forall k | 0 <= k < |a| ensures UpperChar(a[k]) == UpperChar(b[k]) {
        assert ToUpper(a)[k] == ToUpper(b)[k];
      }
    }
  }

  /** Upper-casing twice is upper-casing once. */
  lemma ToUpperIdempotent(s: string)
    ensures ToUpper(ToUpper(s)) == ToUpper(s)
  {
  }

  /** `needle` occurs in `haystack` starting at index `i`. */
  predicate OccursAt(haystack: string, needle: string, i: int)
  {
    0 <= i && i + |needle| <= |haystack| && haystack[i..i + |needle|] == needle
  }

  /** `haystack.includes(needle)`. */
  predicate Contains(haystack: string, needle: string)
  {
    exists i :: 0 <= i <= |haystack| - |needle| && OccursAt(haystack, needle, i)
  }

  function DigitChar(d: nat): (c: char)
    requires d < 10
    ensures IsDigit(c)
  {
    ('0' as int + d) as char
  }

  function DigitValue(c: char): (d: nat)
    requires IsDigit(c)
    ensures d < 10 && DigitChar(d) == c
  {
    c as int - '0' as int
  }

  /** The decimal text of a non-negative integer, as a template literal
      `${n}` renders it. */
  function DecimalString(n: nat): (r: string)
    ensures |r| > 0
    ensures forall k :: 0 <= k < |r| ==> IsDigit(r[k])
    ensures |r| > 1 ==> r[0] != '0'
    decreases n
  {
    if n < 10 then [DigitChar(n)] else DecimalString(n / 10) + [DigitChar(n % 10)]
  }

  /** Reads a string of digits back as a number. */
  function ParseDecimal(s: string): (n: nat)
    requires forall k :: 0 <= k < |s| ==> IsDigit(s[k])
    decreases |s|
  {
    if s == [] then 0 else ParseDecimal(s[..|s| - 1]) * 10 + DigitValue(s[|s| - 1])
  }

  /** The decimal text determines the number: `DecimalString` has an inverse. */
  lemma {:induction false} DecimalStringRoundTrip(n: nat)
    ensures ParseDecimal(DecimalString(n)) == n
    decreases n
  {
    var r := DecimalString(n);
    if n >= 10 {
      assert r[..|r| - 1] == DecimalString(n / 10);
      DecimalStringRoundTrip(n / 10);
    }
  }
}
