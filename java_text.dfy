/**
 * The few pieces of the Java and Apache Commons string library the
 * authenticator relies on: `Character.isWhitespace`, `StringUtils.isBlank`
 * and the decimal text that `String.valueOf(int)` produces.
 */
module JavaText {
  import opened Wrappers

  /** `Character.isWhitespace` on one character. A `char` here is a Unicode
      scalar value, where Java sees a supplementary character as two UTF-16
      surrogates; no surrogate and no supplementary character is whitespace,
      and none is quoted or escaped, so blankness, escaping and quote removal
      come out the same. The no-break spaces U+00A0, U+2007 and U+202F are
      deliberately not whitespace in Java. */
  predicate IsWhitespace(c: char) {
    var n := c as int;
    (9 <= n <= 13) || (28 <= n <= 32) || n == 0x1680
    || (0x2000 <= n <= 0x2006) || (0x2008 <= n <= 0x200A)
    || n == 0x2028 || n == 0x2029 || n == 0x205F || n == 0x3000
  }

  /** `StringUtils.isBlank`: null, empty, or nothing but whitespace. */
  predicate IsBlank(s: Option<string>) {
    s.None? || forall i :: 0 <= i < |s.value| ==> IsWhitespace(s.value[i])
  }

  predicate IsDecimalDigit(c: char) {
    '0' <= c <= '9'
  }

  function DigitChar(d: nat): (c: char)
    requires d < 10
    ensures IsDecimalDigit(c)
  {
    ('0' as int + d) as char
  }

  function Pow10(k: nat): nat {
    if k == 0 then 1 else 10 * Pow10(k - 1)
  }

  /** The decimal digits of a non-negative number, most significant first,
      without leading zeros. */
  function NatToDecimal(n: nat): (s: string)
    ensures |s| >= 1
    ensures forall i :: 0 <= i < |s| ==> IsDecimalDigit(s[i])
  {
    if n < 10 then [DigitChar(n)] else NatToDecimal(n / 10) + [DigitChar(n % 10)]
  }

  /** `String.valueOf(int)`. */
  function IntToDecimal(n: int): string {
    if n < 0 then "-" + NatToDecimal(-n) else NatToDecimal(n)
  }

  /** A number in [10^k, 10^(k+1)) is written with exactly k + 1 digits. */
  lemma {:induction false} DecimalLength(n: nat, k: nat)
    requires Pow10(k) <= n < Pow10(k + 1)
    ensures |NatToDecimal(n)| == k + 1
  {
    if k == 0 {
      assert n < 10;
    } else {
      assert Pow10(k) == 10 * Pow10(k - 1);
      assert Pow10(k + 1) == 10 * Pow10(k);
      assert n >= 10;
      DecimalLength(n / 10, k - 1);
    }
  }

  /** A positive number's decimal text never starts with '0'. */
  lemma {:induction false} DecimalNoLeadingZero(n: nat)
    requires n > 0
    ensures NatToDecimal(n)[0] != '0'
  {
    if n >= 10 {
      DecimalNoLeadingZero(n / 10);
      assert NatToDecimal(n)[0] == NatToDecimal(n / 10)[0];
    }
  }
}
