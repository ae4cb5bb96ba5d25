/** ASCII readings of the character tests the equation front end uses:
    `str.isupper`, `str.islower`, `str.isalpha`, `str.isspace` on one
    character, and `isdigitdot` (a full match of `[0-9.]+`). */
module CharClasses {

  predicate IsUpper(c: char) { 'A' <= c <= 'Z' }

  predicate IsLower(c: char) { 'a' <= c <= 'z' }

  predicate IsAlpha(c: char) { IsUpper(c) || IsLower(c) }

  predicate IsDigit(c: char) { '0' <= c <= '9' }

  predicate IsDigitDot(c: char) { IsDigit(c) || c == '.' }

  /** `str.isspace` restricted to ASCII: tab, line feed, vertical tab, form
      feed, carriage return, the four information separators and space. */
  predicate IsSpace(c: char) {
    var n := c as int;
    n == 32 || 9 <= n <= 13 || 28 <= n <= 31
  }

  /** `isdigitdot(s)`: `s` is non-empty and made of digits and dots only. */
  predicate IsDigitDotText(s: string) {
    |s| > 0 && forall k :: 0 <= k < |s| ==> IsDigitDot(s[k])
  }

  /** `s.isalpha()`: `s` is non-empty and made of letters only. */
  predicate IsAlphaText(s: string) {
    |s| > 0 && forall k :: 0 <= k < |s| ==> IsAlpha(s[k])
  }

  predicate IsDigits(s: string) {
    forall k :: 0 <= k < |s| ==> IsDigit(s[k])
  }

  /** The natural number spelled by a string of decimal digits. */
  function DigitsValue(s: string): nat
    requires IsDigits(s)
  {
    if |s| == 0 then 0
    else DigitsValue(s[..|s| - 1]) * 10 + (s[|s| - 1] as int - '0' as int)
  }

  /** The decimal digit of a number below ten. */
  function Digit(d: nat): char
    requires d < 10
  {
    ('0' as int + d) as char
  }

  /** `str(n)`: the decimal digits of `n`, without leading zeros. */
  function NatDigits(n: nat): string
    decreases n
  {
    if n < 10 then [Digit(n)] else NatDigits(n / 10) + [Digit(n % 10)]
  }

  /** Reading back the digits written for `n` gives `n`. */
  lemma {:induction false} DigitsRoundTrip(n: nat)
    ensures |NatDigits(n)| > 0 && IsDigits(NatDigits(n))
    ensures DigitsValue(NatDigits(n)) == n
    decreases n
  {
    var s := NatDigits(n);
    if n >= 10 {
      DigitsRoundTrip(n / 10);
      assert s[..|s| - 1] == NatDigits(n / 10);
    }
  }

  /** The character strings the equation front end matches against (a
      character matches when it is one of them). */
  datatype CharSet = OpenParen | CloseParen | Parens | Separators

  function Chars(cs: CharSet): string {
    match cs
    case OpenParen => "("
    case CloseParen => ")"
    case Parens => "()"
    case Separators => "+="
  }
}
