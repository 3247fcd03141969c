/**
 * The PHP conversions the server scripts apply to request fields: `intval`
 * and `floatval` of a string, which read the longest numeric prefix and
 * ignore the rest. Fractions are exact (`real`); exponent notation is not
 * modelled.
 */
module PhpValues {
  import opened Text

  /** The white space PHP skips before the digits of a numeric string. */
  predicate IsNumberSpace(c: char) {
    c == ' ' || c == '\t' || c == '\n' || c == '\r' || c == '\U{000B}' || c == '\U{000C}'
  }

  function SkipNumberSpaces(s: string): string {
    if s != [] && IsNumberSpace(s[0]) then SkipNumberSpaces(s[1..]) else s
  }

  /** Skipping leaves a suffix of the text that does not start with white space. */
  lemma {:induction false} SkipNumberSpacesShape(s: string)
    ensures var r := SkipNumberSpaces(s);
      |r| <= |s| && r == s[|s| - |r|..] && (r != [] ==> !IsNumberSpace(r[0]))
  {
    if s != [] && IsNumberSpace(s[0]) {
      SkipNumberSpacesShape(s[1..]);
    }
  }

  /** The longest prefix of `s` made of decimal digits. */
  function DigitPrefix(s: string): (r: string)
    ensures |r| <= |s| && AllDigits(r)
  {
    if s != [] && IsDigit(s[0]) then [s[0]] + DigitPrefix(s[1..]) else []
  }

  /** The digit prefix is a prefix, all digits, and followed by a non-digit or the end. */
  lemma {:induction false} DigitPrefixShape(s: string)
    ensures var r := DigitPrefix(s);
      r == s[..|r|] && (|r| < |s| ==> !IsDigit(s[|r|]))
  {
    if s != [] && IsDigit(s[0]) {
      DigitPrefixShape(s[1..]);
      var r := DigitPrefix(s);
      assert r == [s[0]] + DigitPrefix(s[1..]);
    }
  }

  /** Digits are their own digit prefix. */
  lemma {:induction false} DigitPrefixOfDigits(s: string)
    requires AllDigits(s)
    ensures DigitPrefix(s) == s
  {
    if s != [] {
      DigitPrefixOfDigits(s[1..]);
    }
  }

  /** The text after the leading white space and one optional sign, and whether that sign was '-'. */
  function Unsigned(s: string): (bool, string) {
    var t := SkipNumberSpaces(s);
    if t != [] && (t[0] == '-' || t[0] == '+') then (t[0] == '-', t[1..]) else (false, t)
  }

  /** `PHP_INT_MAX` and `PHP_INT_MIN` of a 64-bit build. */
  const PhpIntMax: int := 0x7FFF_FFFF_FFFF_FFFF
  const PhpIntMin: int := -0x8000_0000_0000_0000

  /** The nearest PHP integer: a value outside the 64-bit range sticks at its end. */
  function Saturate(v: int): (r: int)
    ensures PhpIntMin <= r <= PhpIntMax
    ensures PhpIntMin <= v <= PhpIntMax ==> r == v
    ensures v > PhpIntMax ==> r == PhpIntMax
    ensures v < PhpIntMin ==> r == PhpIntMin
  {
    if v > PhpIntMax then PhpIntMax else if v < PhpIntMin then PhpIntMin else v
  }

  /**
   * `intval(s)`: the signed whole number at the start of `s`, 0 when there is
   * none; a number too large for a PHP integer saturates at `PHP_INT_MAX`
   * (or `PHP_INT_MIN` when negative).
   */
  function IntVal(s: string): int {
    var (negative, u) := Unsigned(s);
    var v := ParseDigits(DigitPrefix(u)) as int;
    Saturate(if negative then -v else v)
  }

  function Pow10(k: nat): (p: nat)
    ensures p >= 1
  {
    if k == 0 then 1 else 10 * Pow10(k - 1)
  }

  /** The digits after a leading '.', none when `s` does not start with one. */
  function FractionDigits(s: string): (r: string)
    ensures AllDigits(r)
  {
    if s != [] && s[0] == '.' then DigitPrefix(s[1..]) else []
  }

  /** `floatval(s)`: the signed decimal number at the start of `s`, 0 when there is none. */
  function FloatVal(s: string): real {
    var (negative, u) := Unsigned(s);
    var whole := DigitPrefix(u);
    var fraction := FractionDigits(u[|whole|..]);
    var v := ParseDigits(whole) as real + ParseDigits(fraction) as real / Pow10(|fraction|) as real;
    if negative then -v else v
  }

  /**
   * A plain digit string reads as its own value under both conversions, except
   * that `intval` stops at `PHP_INT_MAX`.
   */
  lemma DigitsConvert(s: string)
    requires AllDigits(s)
    ensures ParseDigits(s) <= PhpIntMax ==> IntVal(s) == ParseDigits(s) as int
    ensures ParseDigits(s) > PhpIntMax ==> IntVal(s) == PhpIntMax
    ensures FloatVal(s) == ParseDigits(s) as real
  {
    DigitsUnsigned(s);
    var fraction := FractionDigits(s[|s|..]);
    assert s[|s|..] == [];
    assert fraction == [];
    assert ParseDigits(fraction) == 0 && Pow10(|fraction|) == 1;
  }

  /** A plain digit string has no sign and is its own digit prefix. */
  lemma DigitsUnsigned(s: string)
    requires AllDigits(s)
    ensures Unsigned(s) == (false, s) && DigitPrefix(s) == s
  {
    DigitPrefixOfDigits(s);
    if s != [] {
      assert IsDigit(s[0]);
      assert !IsNumberSpace(s[0]) && s[0] != '-' && s[0] != '+';
      assert SkipNumberSpaces(s) == s;
    }
  }

  /** `intval` reads back the decimal spelling of every whole number up to `PHP_INT_MAX`, and larger ones as `PHP_INT_MAX`. */
  lemma IntValReadsBack(n: nat)
    ensures n <= PhpIntMax ==> IntVal(NatToString(n)) == n
    ensures n > PhpIntMax ==> IntVal(NatToString(n)) == PhpIntMax
  {
    NatToStringReadsBack(n);
    DigitsConvert(NatToString(n));
  }

  /** A minus sign in front negates the value, down to `PHP_INT_MIN`. */
  lemma IntValNegative(s: string)
    requires AllDigits(s)
    ensures -(ParseDigits(s) as int) >= PhpIntMin ==> IntVal("-" + s) == -(ParseDigits(s) as int)
    ensures -(ParseDigits(s) as int) < PhpIntMin ==> IntVal("-" + s) == PhpIntMin
  {
    var t := "-" + s;
    assert !IsNumberSpace(t[0]);
    assert Unsigned(t) == (true, s);
    DigitPrefixOfDigits(s);
  }

  /** The value of text that starts with neither a sign nor a digit nor a '.' (after white space) is 0. */
  lemma NonNumericIsZero(s: string)
    requires var t := SkipNumberSpaces(s); t == [] || (!IsDigit(t[0]) && t[0] != '-' && t[0] != '+' && t[0] != '.')
    ensures IntVal(s) == 0 && FloatVal(s) == 0.0
  {
  }

  /** A whole part, a '.', and fraction digits read as the exact decimal value. */
  lemma FloatValDecimal(whole: string, fraction: string)
    requires AllDigits(whole) && AllDigits(fraction)
    ensures FloatVal(whole + "." + fraction)
         == ParseDigits(whole) as real + ParseDigits(fraction) as real / Pow10(|fraction|) as real
  {
    DecimalParts(whole, fraction);
  }

  /** How `FloatVal` splits digits, a '.' and digits: no sign, the whole part, then the fraction. */
  lemma DecimalParts(whole: string, fraction: string)
    requires AllDigits(whole) && AllDigits(fraction)
    ensures var s := whole + "." + fraction;
      && Unsigned(s) == (false, s)
      && DigitPrefix(s) == whole
      && FractionDigits(s[|whole|..]) == fraction
  {
    var s := whole + "." + fraction;
    if whole != [] {
      assert s[0] == whole[0] && IsDigit(whole[0]);
    } else {
      assert s[0] == '.';
    }
    assert !IsNumberSpace(s[0]) && s[0] != '-' && s[0] != '+';
    assert SkipNumberSpaces(s) == s;
    assert s == whole + ("." + fraction);
    DigitPrefixStops(whole, "." + fraction);
    assert s[|whole|..] == "." + fraction;
    assert ("." + fraction)[1..] == fraction;
    DigitPrefixOfDigits(fraction);
  }

  /** The digit prefix of digits followed by a non-digit is those digits. */
  lemma {:induction false} DigitPrefixStops(digits: string, rest: string)
    requires AllDigits(digits)
    requires rest != [] && !IsDigit(rest[0])
    ensures DigitPrefix(digits + rest) == digits
    decreases |digits|
  {
    if digits != [] {
      assert (digits + rest)[1..] == digits[1..] + rest;
      DigitPrefixStops(digits[1..], rest);
    }
  }
}
