/**
 * Rendering of unsigned integers as text, the way Rust's `format!("{}", n)`
 * (base 10) and `format!("{:o}", n)` (base 8) write them: no prefix, no sign,
 * no leading zeros.
 */
module Digits {

  /** `c` is a digit of `base`. */
  predicate IsDigit(c: char, base: nat)
  {
    '0' as int <= c as int < '0' as int + base
  }

  function DigitChar(d: nat, base: nat): (c: char)
    requires d < base <= 10
    ensures IsDigit(c, base)
  {
    ('0' as int + d) as char
  }

  function DigitValue(c: char): nat
    requires '0' as int <= c as int
  {
    c as int - '0' as int
  }

  /** `n` written in `base`, most significant digit first. */
  function Render(n: nat, base: nat): (s: string)
    requires 2 <= base <= 10
    ensures |s| >= 1
    ensures forall i :: 0 <= i < |s| ==> IsDigit(s[i], base)
    ensures s[0] == '0' <==> n == 0
    ensures n == 0 ==> s == "0"
    decreases n
  {
    if n < base then [DigitChar(n, base)]
    else Render(n / base, base) + [DigitChar(n % base, base)]
  }

  /** The value of a string of digits, read in `base`. */
  function Parse(s: string, base: nat): nat
    requires forall i :: 0 <= i < |s| ==> IsDigit(s[i], base)
  {
    if s == [] then 0
    else
      assert IsDigit(s[|s| - 1], base);
      Parse(s[..|s| - 1], base) * base + DigitValue(s[|s| - 1])
  }

  /** Appending one digit multiplies the value read so far by the base. */
  lemma ParseSnoc(t: string, c: char, base: nat)
    requires forall i :: 0 <= i < |t| ==> IsDigit(t[i], base)
    requires IsDigit(c, base)
    ensures Parse(t + [c], base) == Parse(t, base) * base + DigitValue(c)
  {
    assert (t + [c])[..|t|] == t;
  }

  lemma QuotientSmaller(n: nat, base: nat)
    requires 2 <= base <= n
    ensures n / base < n
  {
    var q := n / base;
    assert q * base <= n;
    assert q * base >= q * 2;
  }

  /** Reading back what `Render` wrote gives the number. */
  lemma {:induction false} ParseRender(n: nat, base: nat)
    requires 2 <= base <= 10
    ensures Parse(Render(n, base), base) == n
    decreases n
  {
    if n >= base {
      var q, d := n / base, n % base;
      assert n == q * base + d;
      QuotientSmaller(n, base);
      assert DigitValue(DigitChar(d, base)) == d;
      ParseRender(q, base);
      ParseSnoc(Render(q, base), DigitChar(d, base), base);
    } else {
      assert Parse([DigitChar(n, base)], base) == Parse([], base) * base + n;
    }
  }

  /** Distinct numbers are rendered as distinct strings. */
  lemma RenderInjective(m: nat, n: nat, base: nat)
    requires 2 <= base <= 10
    requires Render(m, base) == Render(n, base)
    ensures m == n
  {
    ParseRender(m, base);
    ParseRender(n, base);
  }

  /** `format!("{}", n)` */
  function Decimal(n: nat): (s: string)
    ensures |s| >= 1 && forall i :: 0 <= i < |s| ==> IsDigit(s[i], 10)
    ensures Parse(s, 10) == n
    ensures s[0] == '0' ==> s == "0"
  {
    ParseRender(n, 10);
    Render(n, 10)
  }

  /** `format!("{:o}", n)` */
  function Octal(n: nat): (s: string)
    ensures |s| >= 1 && forall i :: 0 <= i < |s| ==> IsDigit(s[i], 8)
    ensures Parse(s, 8) == n
    ensures s[0] == '0' ==> s == "0"
  {
    ParseRender(n, 8);
    Render(n, 8)
  }
}
