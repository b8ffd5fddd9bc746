/** Java's 32-bit `int`, `Integer.parseInt` (radix 10) and `String.valueOf(int)`. */
module JavaInts {
  import opened Wrappers

  const MIN_INT: int := -0x8000_0000
  const MAX_INT: int := 0x7fff_ffff

  /** The values of a Java `int`. */
  type Int32 = x: int | MIN_INT <= x <= MAX_INT

  predicate IsDigit(c: char) {
    '0' <= c <= '9'
  }

  predicate AllDigits(s: string) {
    forall i :: 0 <= i < |s| ==> IsDigit(s[i])
  }

  function DigitValue(c: char): (d: nat)
    requires IsDigit(c)
    ensures d < 10
  {
    c as int - '0' as int
  }

  function DigitChar(d: nat): (c: char)
    requires d < 10
    ensures IsDigit(c) && DigitValue(c) == d
  {
    ('0' as int + d) as char
  }

  /** The number a string of decimal digits denotes, most significant digit first. */
  function DigitsValue(s: string): nat
    requires AllDigits(s)
  {
    if s == [] then 0 else 10 * DigitsValue(s[..|s| - 1]) + DigitValue(s[|s| - 1])
  }

  /** Decimal digits of `n` without leading zeros ("0" for zero). */
  function NatToString(n: nat): (r: string)
    ensures 0 < |r| && AllDigits(r)
    ensures DigitsValue(r) == n
    ensures |r| == 1 <==> n < 10
    ensures r[0] == '0' ==> n == 0
    decreases n
  {
    if n < 10 then [DigitChar(n)]
    else
      var prefix := NatToString(n / 10);
      var r := prefix + [DigitChar(n % 10)];
      assert r[..|r| - 1] == prefix;
      assert r[0] == prefix[0];
      r
  }

  /** `String.valueOf(int)`: an optional minus sign followed by the digits of
      the magnitude, with no leading zero unless the value is zero. */
  function IntToString(v: int): (r: string)
    ensures 0 < |r|
    ensures r[0] == '-' <==> v < 0
    ensures v < 0 ==> 1 < |r| && AllDigits(r[1..]) && DigitsValue(r[1..]) == -v && r[1] != '0'
    ensures 0 <= v ==> AllDigits(r) && DigitsValue(r) == v
    ensures 0 <= v ==> (r[0] == '0' <==> v == 0)
    ensures v == 0 ==> r == "0"
  {
    if v < 0 then
      var r := "-" + NatToString(-v);
      assert r[1..] == NatToString(-v);
      assert r[1] == NatToString(-v)[0];
      r
    else NatToString(v)
  }

  /** `Integer.parseInt(s)`: an optional '-' or '+' sign, at least one
      decimal digit, and a value within the range of `int`; anything else is
      a `NumberFormatException` (None). */
  function ParseInt(s: string): (r: Option<Int32>)
    ensures r.Some? ==> 0 < |s| && (IsDigit(s[0]) || s[0] == '-' || s[0] == '+')
    ensures r.Some? && r.value < 0 ==> s[0] == '-'
  {
    if |s| == 0 then None
    else if s[0] == '-' then ParseDigits(s[1..], true)
    else if s[0] == '+' then ParseDigits(s[1..], false)
    else ParseDigits(s, false)
  }

  /** The digits after the sign: at least one, all decimal, and a signed value that is an `int`. */
  function ParseDigits(digits: string, negative: bool): (r: Option<Int32>)
    ensures r.Some? ==> 0 < |digits| && IsDigit(digits[0])
    ensures r.Some? && r.value < 0 ==> negative
  {
    if |digits| == 0 || !AllDigits(digits) then None
    else
      var magnitude: int := DigitsValue(digits);
      var v: int := if negative then -magnitude else magnitude;
      if MIN_INT <= v <= MAX_INT then Some(v) else None
  }

  /** Printing an `int` and parsing it back gives the same `int`
      (`add(tag, int)` relies on this for the numeric header and trailer slots). */
  lemma ParseIntToString(v: Int32)
    ensures ParseInt(IntToString(v)) == Some(v)
  {
    var s := IntToString(v);
    if v < 0 {
      assert s[0] == '-';
    } else {
      assert s[0] != '-' && IsDigit(s[0]);
    }
  }

  /** An optional sign followed by at least one digit parses to its signed
      value when that value is an `int`, and is rejected otherwise; leading
      zeros, a leading '+' and "-0" are accepted. */
  lemma ParseIntAccepts(sign: string, digits: string)
    requires sign == "" || sign == "+" || sign == "-"
    requires 0 < |digits| && AllDigits(digits)
    ensures var v := if sign == "-" then -(DigitsValue(digits) as int) else DigitsValue(digits) as int;
      ParseInt(sign + digits) == if MIN_INT <= v <= MAX_INT then Some(v) else None
  {
    var s := sign + digits;
    if sign == "" {
      assert s == digits;
      assert IsDigit(digits[0]);
      assert ParseInt(s) == ParseDigits(digits, false);
    } else {
      assert s[0] == sign[0] && s[1..] == digits;
      assert ParseInt(s) == ParseDigits(digits, sign == "-");
    }
  }

  /** `Integer.parseInt` on a few edge cases. */
  lemma ParseIntExamples()
    ensures ParseInt("+5") == Some(5)
    ensures ParseInt("007") == Some(7)
    ensures ParseInt("-0") == Some(0)
  {
    ParseIntAccepts("+", "5");
    assert "+" + "5" == "+5";
    assert DigitsValue("007") == 7 by {
      assert "007"[..2] == "00" && "00"[..1] == "0" && "0"[..0] == "";
    }
    ParseIntAccepts("", "007");
    assert "" + "007" == "007";
    ParseIntAccepts("-", "0");
    assert "-" + "0" == "-0";
  }

  /** Text with a character that is neither a digit nor a leading sign is not
      an `int`, and neither is the empty text or a sign alone. */
  lemma ParseIntRejects(s: string, i: int)
    requires 0 <= i < |s| && !IsDigit(s[i]) && !(i == 0 && (s[0] == '-' || s[0] == '+'))
    ensures ParseInt(s) == None
    ensures ParseInt("") == None && ParseInt("-") == None && ParseInt("+") == None
  {
    var digits := if s[0] == '-' || s[0] == '+' then s[1..] else s;
    if s[0] == '-' || s[0] == '+' {
      assert digits[i - 1] == s[i];
    }
    assert !AllDigits(digits);
  }
}
