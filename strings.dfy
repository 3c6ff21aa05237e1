/** Text helpers for the Rust `str` methods the core relies on. */
module Strings {

  /**
   * The capital letters of Latin-1: `A`–`Z` and `À`–`Þ` without the
   * multiplication sign. Each has its small letter 32 code points above it.
   */
  predicate IsUpper(c: char)
  {
    'A' <= c <= 'Z' || ('\U{C0}' <= c <= '\U{DE}' && c != '\U{D7}')
  }

  /** `char::to_lowercase` on the Latin-1 letters; every other character is kept. */
  function LowerChar(c: char): (l: char)
    ensures IsUpper(c) ==> l as int == c as int + 32 && !IsUpper(l)
    ensures !IsUpper(c) ==> l == c
  {
    if IsUpper(c) then (c as int + 32) as char else c
  }

  /** `str::to_lowercase`, restricted to the Latin-1 letters. */
  function ToLower(s: string): (r: string)
    ensures |r| == |s|
    ensures forall i :: 0 <= i < |s| ==> r[i] == LowerChar(s[i])
  {
    seq(|s|, i requires 0 <= i < |s| => LowerChar(s[i]))
  }

  /** Lowercasing twice is lowercasing once. */
  lemma ToLowerIdempotent(s: string)
    ensures ToLower(ToLower(s)) == ToLower(s)
  {
  }

  /** Index of the last `c` in `s`, or -1 when there is none (`str::rfind`). */
  function LastIndexOf(s: string, c: char): (k: int)
    ensures -1 <= k < |s|
    ensures k >= 0 ==> s[k] == c
    ensures forall j :: k < j < |s| ==> s[j] != c
    decreases |s|
  {
    if s == [] then -1
    else if s[|s| - 1] == c then |s| - 1
    else LastIndexOf(s[..|s| - 1], c)
  }

  /** The text after the last `c` in `s`; all of `s` when it has no `c`. */
  function AfterLast(s: string, c: char): (r: string)
    ensures c !in r
  {
    var r := s[LastIndexOf(s, c) + 1..];
    assert forall j :: 0 <= j < |r| ==> r[j] != c;
    r
  }

  /** Whatever precedes it, the text after a `c` that is followed by no other `c` is what `AfterLast` returns. */
  lemma AfterLastOfSuffix(x: string, c: char, d: string)
    requires c !in d
    ensures AfterLast(x + [c] + d, c) == d
  {
    var s := x + [c] + d;
    var k := LastIndexOf(s, c);
    assert s[|x|] == c;
    assert forall j :: |x| < j < |s| ==> s[j] == d[j - |x| - 1];
    assert k == |x|;
    assert s[k + 1..] == d;
  }

  /** `char::is_whitespace`: the Unicode White_Space property. */
  predicate IsWhitespace(c: char)
  {
    var n := c as int;
    n == 0x20 || 0x09 <= n <= 0x0D || n == 0x85 || n == 0xA0 || n == 0x1680
    || 0x2000 <= n <= 0x200A || n == 0x2028 || n == 0x2029 || n == 0x202F
    || n == 0x205F || n == 0x3000
  }

  /** `s.trim().is_empty()`: every character of `s` is white space. */
  predicate IsBlank(s: string)
  {
    forall i :: 0 <= i < |s| ==> IsWhitespace(s[i])
  }
}
