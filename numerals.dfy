/**
 * Digits and positional numerals in radix 10 and 16: the digit classes of
 * JavaScript regular expressions (`\d`, `[0-9A-Fa-f]`) and the numerals that
 * `Number.prototype.toString(radix)` writes for non-negative integers.
 */
module Numerals {

  /** The class `\d`: an ASCII decimal digit. */
  predicate IsDecimalDigit(c: char) {
    '0' <= c <= '9'
  }

  /** The class `[0-9A-Fa-f]`: a hexadecimal digit in either case. */
  predicate IsHexDigit(c: char) {
    '0' <= c <= '9' || 'a' <= c <= 'f' || 'A' <= c <= 'F'
  }

  predicate IsRadix(radix: nat) {
    radix == 10 || radix == 16
  }

  /** A digit of the given radix, as `parseInt` accepts it. */
  predicate IsDigitOf(c: char, radix: nat)
    requires IsRadix(radix)
  {
    if radix == 10 then IsDecimalDigit(c) else IsHexDigit(c)
  }

  predicate AllDigitsOf(s: string, radix: nat)
    requires IsRadix(radix)
  {
    forall i :: 0 <= i < |s| ==> IsDigitOf(s[i], radix)
  }

  /** The value of one digit; upper and lower case letters have the same value. */
  function DigitValue(c: char): (v: nat)
    requires IsHexDigit(c)
    ensures v < 16
    ensures IsDecimalDigit(c) <==> v < 10
  {
    if '0' <= c <= '9' then c as int - '0' as int
    else if 'a' <= c <= 'f' then c as int - 'a' as int + 10
    else c as int - 'A' as int + 10
  }

  /** The digit `toString(radix)` writes for a value: `0`-`9`, then lower-case `a`-`f`. */
  function DigitChar(d: nat): (c: char)
    requires d < 16
    ensures IsHexDigit(c) && DigitValue(c) == d
    ensures !('A' <= c <= 'F')
  {
    if d < 10 then ('0' as int + d) as char else ('a' as int + d - 10) as char
  }

  /** ASCII lower-casing of one character. */
  function ToLowerAscii(c: char): (l: char)
    ensures IsHexDigit(c) ==> l == DigitChar(DigitValue(c))
    ensures !('A' <= c <= 'Z') ==> l == c
  {
    if 'A' <= c <= 'Z' then (c as int - 'A' as int + 'a' as int) as char else c
  }

  /** ASCII lower-casing of a string, character by character. */
  function LowerAscii(s: string): (r: string)
    ensures |r| == |s|
    ensures forall i :: 0 <= i < |s| ==> r[i] == ToLowerAscii(s[i])
  {
    if s == [] then [] else [ToLowerAscii(s[0])] + LowerAscii(s[1..])
  }

  /** v times the radix, one constant factor per radix so that the arithmetic stays linear. */
  function Shift(v: nat, radix: nat): nat
    requires IsRadix(radix)
  {
    if radix == 10 then 10 * v else 16 * v
  }

  /** n divided by the radix, rounded down. */
  function Quotient(n: nat, radix: nat): nat
    requires IsRadix(radix)
  {
    if radix == 10 then n / 10 else n / 16
  }

  /** The remainder of n divided by the radix: its last digit. */
  function Remainder(n: nat, radix: nat): (d: nat)
    requires IsRadix(radix)
    ensures d < radix && n == Shift(Quotient(n, radix), radix) + d
  {
    if radix == 10 then n % 10 else n % 16
  }

  /** The value of a numeral, most significant digit first. */
  function ValueOf(s: string, radix: nat): nat
    requires IsRadix(radix) && AllDigitsOf(s, radix)
  {
    if s == [] then 0 else Shift(ValueOf(s[..|s| - 1], radix), radix) + DigitValue(s[|s| - 1])
  }

  /** The numeral of n with no leading zero, as `n.toString(radix)` writes a non-negative integer. */
  function ToDigits(n: nat, radix: nat): (s: string)
    requires IsRadix(radix)
    ensures |s| > 0 && AllDigitsOf(s, radix)
    ensures ValueOf(s, radix) == n
    decreases n
  {
    if n < radix then [DigitChar(n)]
    else
      var s := ToDigits(Quotient(n, radix), radix) + [DigitChar(Remainder(n, radix))];
      assert s[..|s| - 1] == ToDigits(Quotient(n, radix), radix);
      s
  }

  /** Letters come out in lower case, and there is no leading zero. */
  lemma {:induction false} ToDigitsShape(n: nat, radix: nat)
    requires IsRadix(radix)
    ensures forall i :: 0 <= i < |ToDigits(n, radix)| ==> !('A' <= ToDigits(n, radix)[i] <= 'F')
    ensures |ToDigits(n, radix)| > 1 ==> ToDigits(n, radix)[0] != '0'
    decreases n
  {
    if n >= radix {
      var q := Quotient(n, radix);
      ToDigitsShape(q, radix);
      if q < radix {
        assert ToDigits(q, radix) == [DigitChar(q)];
      }
    }
  }

  /** A value below 16 is written with one hexadecimal digit, one below 256 with at most two, a larger one with at least three. */
  lemma HexDigitsLength(n: nat)
    ensures n < 16 ==> ToDigits(n, 16) == [DigitChar(n)]
    ensures 16 <= n < 256 ==> ToDigits(n, 16) == [DigitChar(n / 16), DigitChar(n % 16)]
    ensures 256 <= n ==> |ToDigits(n, 16)| >= 3
  {
    if 256 <= n {
      assert n / 16 >= 16;
      HexDigitsLength(n / 16);
    }
  }

  /** Two hexadecimal digits have the value a byte-sized channel takes. */
  lemma ValueOfHexPair(p: string)
    requires |p| == 2 && AllDigitsOf(p, 16)
    ensures ValueOf(p, 16) == 16 * DigitValue(p[0]) + DigitValue(p[1])
    ensures ValueOf(p, 16) < 256
  {
    assert p[..1][..0] == [];
    assert ValueOf(p[..1], 16) == DigitValue(p[0]);
  }
}
