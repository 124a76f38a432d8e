/** Java's 32-bit `int` with the two conversions the flight search uses:
    `Integer.parseInt(String)` and `Integer.toString(int)`, both in radix 10. */
module JavaInteger {
  import opened Wrappers

  const MIN_VALUE: int := -0x8000_0000
  const MAX_VALUE: int := 0x7FFF_FFFF

  /** Java's `int`. */
  newtype int32 = x: int | -0x8000_0000 <= x < 0x8000_0000

  /** `NumberFormatException`, which names the string it could not read. */
  datatype NumberFormatException = NumberFormatException(input: string)

  predicate IsDigit(c: char) {
    '0' <= c <= '9'
  }

  predicate IsDigits(s: string) {
    forall i :: 0 <= i < |s| ==> IsDigit(s[i])
  }

  predicate AllZeros(s: string) {
    forall i :: 0 <= i < |s| ==> s[i] == '0'
  }

  function DigitValue(c: char): (d: nat)
    requires IsDigit(c)
    ensures d < 10
  {
    c as int - '0' as int
  }

  function DigitChar(d: nat): (c: char)
    requires d < 10
    ensures IsDigit(c) && DigitValue(c) == d
  {
    ('0' as int + d) as char
  }

  /** The number denoted by a string of decimal digits, most significant first. */
  function DigitsValue(s: string): nat
    requires IsDigits(s)
  {
    if s == [] then 0 else DigitsValue(s[..|s| - 1]) * 10 + DigitValue(s[|s| - 1])
  }

  /** The decimal digits of n, with no leading zero except in "0" itself. */
  function NatToString(n: nat): (r: string)
    ensures |r| >= 1 && IsDigits(r)
    ensures r[0] == '0' ==> r == "0"
    ensures DigitsValue(r) == n
  {
    if n < 10 then [DigitChar(n)]
    else
      var r := NatToString(n / 10) + [DigitChar(n % 10)];
      assert r[..|r| - 1] == NatToString(n / 10);
      r
  }

  /** `Integer.toString(n)`: a minus sign for negative numbers, then the digits. */
  function IntToString(n: int): (r: string)
    ensures |r| >= 1
    ensures n < 0 <==> r[0] == '-'
  {
    if n < 0 then "-" + NatToString(-n) else NatToString(n)
  }

  /** `Integer.parseInt(s)`: an optional '-' or '+', then at least one decimal
      digit and nothing else; leading zeros are allowed; the value must lie in the
      `int` range. Anything else throws NumberFormatException. */
  function ParseInt(s: string): (r: Result<int32, NumberFormatException>)
    ensures r.Err? ==> r.error == NumberFormatException(s)
  {
    if s == [] then Err(NumberFormatException(s))
    else
      var negative := s[0] == '-';
      var digits := if s[0] == '-' || s[0] == '+' then s[1..] else s;
      if digits == [] || !IsDigits(digits) then Err(NumberFormatException(s))
      else
        var magnitude: int := DigitsValue(digits);
        var v: int := if negative then -magnitude else magnitude;
        if MIN_VALUE <= v <= MAX_VALUE then Ok(v as int32) else Err(NumberFormatException(s))
  }

  /** Leading zeros do not change the value of a digit string. */
  lemma {:induction false} DigitsValueLeadingZeros(z: string, d: string)
    requires AllZeros(z) && IsDigits(d)
    ensures IsDigits(z + d) && DigitsValue(z + d) == DigitsValue(d)
  {
    assert IsDigits(z + d) by {
      forall i | 0 <= i < |z + d| ensures IsDigit((z + d)[i]) {
        if i < |z| { assert (z + d)[i] == z[i]; } else { assert (z + d)[i] == d[i - |z|]; }
      }
    }
    if d == [] {
      assert z + d == z;
      ZerosValue(z);
    } else {
      var zd := z + d;
      assert zd[..|zd| - 1] == z + d[..|d| - 1];
      assert zd[|zd| - 1] == d[|d| - 1];
      DigitsValueLeadingZeros(z, d[..|d| - 1]);
    }
  }

  lemma {:induction false} ZerosValue(z: string)
    requires AllZeros(z)
    ensures IsDigits(z) && DigitsValue(z) == 0
  {
    if z != [] {
      ZerosValue(z[..|z| - 1]);
    }
  }

  /** A digit string whose first digit is not zero denotes a positive number. */
  lemma {:induction false} DigitsValuePositive(d: string)
    requires |d| >= 1 && IsDigits(d) && d[0] != '0'
    ensures DigitsValue(d) >= 1
  {
    if |d| > 1 {
      DigitsValuePositive(d[..|d| - 1]);
    }
  }

  /** NatToString is also a left inverse of DigitsValue, on digit strings without
      leading zeros. */
  lemma {:induction false} NatToStringOfValue(d: string)
    requires |d| >= 1 && IsDigits(d) && (d[0] == '0' ==> |d| == 1)
    ensures NatToString(DigitsValue(d)) == d
  {
    var last := DigitValue(d[|d| - 1]);
    if |d| == 1 {
      assert DigitsValue(d) == last;
      assert DigitChar(last) == d[0];
    } else {
      var init := d[..|d| - 1];
      NatToStringOfValue(init);
      DigitsValuePositive(init);
      var v := DigitsValue(d);
      assert v == DigitsValue(init) * 10 + last;
      assert v / 10 == DigitsValue(init) && v % 10 == last;
      assert DigitChar(last) == d[|d| - 1];
      assert d == init + [d[|d| - 1]];
    }
  }

  /** How many leading zeros come before the significant digits (one "0" stays
      when all are zeros). */
  function LeadingZeros(d: string): (k: nat)
    requires |d| >= 1 && IsDigits(d)
    ensures k < |d| && AllZeros(d[..k])
    ensures d[k] == '0' ==> k == |d| - 1
  {
    if |d| > 1 && d[0] == '0' then
      var k := LeadingZeros(d[1..]);
      assert d[..k + 1] == [d[0]] + d[1..][..k];
      k + 1
    else 0
  }

  /** Integer.parseInt inverts Integer.toString on every `int`. */
  lemma ParseIntOfToString(n: int32)
    ensures ParseInt(IntToString(n as int)) == Ok(n)
  {
    var s := IntToString(n as int);
    if n < 0 {
      assert s[1..] == NatToString(-(n as int));
    }
  }

  /** A plain digit string whose value fits reads as that value. */
  lemma ParseIntOfDigits(s: string)
    requires |s| >= 1 && IsDigits(s) && DigitsValue(s) <= MAX_VALUE
    ensures ParseInt(s) == Ok(DigitsValue(s) as int32)
  {
  }

  /** An optional sign followed by digits whose signed value fits reads as
      that value: the accepting half of Integer.parseInt. */
  lemma ParseIntOfSignedDigits(sign: string, d: string)
    requires sign == "" || sign == "+" || sign == "-"
    requires |d| >= 1 && IsDigits(d)
    requires MIN_VALUE <= (if sign == "-" then -(DigitsValue(d) as int) else DigitsValue(d)) <= MAX_VALUE
    ensures ParseInt(sign + d) == Ok((if sign == "-" then -(DigitsValue(d) as int) else DigitsValue(d)) as int32)
  {
    var s := sign + d;
    var v: int := DigitsValue(d);
    if sign == "" {
      assert s == d;
      assert IsDigit(s[0]);
      assert ParseInt(s) == Ok(v as int32);
    } else {
      assert s[0] == sign[0] && s[1..] == d;
      var r: int := if sign == "-" then -v else v;
      assert ParseInt(s) == Ok(r as int32);
    }
  }

  /** Leading zeros are accepted and ignored: "0900" reads as 900. */
  lemma ParseIntLeadingZeros(z: string, d: string)
    requires AllZeros(z) && |d| >= 1 && IsDigits(d)
    ensures ParseInt(d).Ok? ==> ParseInt(z + d) == ParseInt(d)
    ensures ParseInt(d).Err? ==> ParseInt(z + d).Err?
  {
    DigitsValueLeadingZeros(z, d);
    if z != [] {
      assert (z + d)[0] == '0';
    } else {
      assert z + d == d;
    }
  }

  /** A number outside the `int` range is refused even when it is written
      correctly. */
  lemma ParseIntOutOfRange(n: int)
    requires n < MIN_VALUE || MAX_VALUE < n
    ensures ParseInt(IntToString(n)).Err?
  {
    var s := IntToString(n);
    if n < 0 {
      assert s[1..] == NatToString(-n);
    }
  }

  /** Strings Integer.parseInt accepts: leading zeros and either sign. */
  lemma ParseIntExamples()
    ensures ParseInt("0900") == Ok(900)
    ensures ParseInt("-12") == Ok(-12)
    ensures ParseInt("+7") == Ok(7)
  {
    assert DigitsValue("9") == 9;
    assert DigitsValue("90") == 90 by { assert "90"[..1] == "9"; }
    assert DigitsValue("900") == 900 by { assert "900"[..2] == "90"; }
    assert DigitsValue("0900") == 900 by { assert "0900"[..3] == "090"; DigitsValueLeadingZeros("0", "90"); assert "0" + "90" == "090"; }
    assert DigitsValue("12") == 12 by { assert "12"[..1] == "1"; }
    assert "-12"[1..] == "12";
    assert "+7"[1..] == "7";
  }

  /** Strings it refuses: the empty string, a lone sign, a trailing letter. */
  lemma ParseIntRefusals()
    ensures ParseInt("") == Err(NumberFormatException(""))
    ensures ParseInt("-") == Err(NumberFormatException("-"))
    ensures ParseInt("9a") == Err(NumberFormatException("9a"))
  {
    assert !IsDigit("9a"[1]);
  }

  /** The digits after the optional sign of an accepted string, and their value. */
  lemma ParsedDigits(s: string, n: int32) returns (sign: string, digits: string)
    requires ParseInt(s) == Ok(n)
    ensures s == sign + digits && |digits| >= 1 && IsDigits(digits)
    ensures sign == "" || sign == "+" || (sign == "-" && n <= 0)
    ensures DigitsValue(digits) == if n < 0 then -(n as int) else n as int
  {
    var signed := s[0] == '-' || s[0] == '+';
    sign := if signed then s[..1] else "";
    digits := if signed then s[1..] else s;
    assert s == sign + digits;
  }

  /** A digit string is its zeros followed by the canonical digits of its value. */
  lemma SplitLeadingZeros(digits: string, v: nat) returns (zeros: string)
    requires |digits| >= 1 && IsDigits(digits) && DigitsValue(digits) == v
    ensures AllZeros(zeros) && digits == zeros + NatToString(v)
  {
    var k := LeadingZeros(digits);
    var sig := digits[k..];
    zeros := digits[..k];
    assert digits == zeros + sig;
    DigitsValueLeadingZeros(zeros, sig);
    NatToStringOfValue(sig);
  }

  /** A sign and a digit string of value v are the sign, some zeros and the
      canonical digits of v. */
  lemma PadParts(sign: string, digits: string, v: nat) returns (zeros: string)
    requires |digits| >= 1 && IsDigits(digits) && DigitsValue(digits) == v
    ensures AllZeros(zeros) && sign + digits == sign + zeros + NatToString(v)
  {
    zeros := SplitLeadingZeros(digits, v);
    var canon := NatToString(v);
    assert sign + zeros + canon == sign + (zeros + canon);
  }

  /** The sign, the leading zeros and the canonical digits of an accepted string. */
  lemma PaddedDecimalParts(s: string, n: int32) returns (sign: string, zeros: string)
    requires ParseInt(s) == Ok(n)
    ensures AllZeros(zeros)
    ensures sign == "" || sign == "+" || (sign == "-" && n <= 0)
    ensures s == sign + zeros + NatToString(if n < 0 then -(n as int) else n as int)
  {
    var digits;
    sign, digits := ParsedDigits(s, n);
    zeros := PadParts(sign, digits, if n < 0 then -(n as int) else n as int);
  }

  /** Every string Integer.parseInt accepts is Integer.toString of its value,
      possibly with a '+' or '-' in front and zeros before the first digit. */
  lemma ParseIntAcceptsOnlyPaddedDecimal(s: string, n: int32)
    requires ParseInt(s) == Ok(n)
    ensures exists sign, zeros :: AllZeros(zeros)
              && (sign == "" || sign == "+" || (sign == "-" && n <= 0))
              && s == sign + zeros + NatToString(if n < 0 then -(n as int) else n as int)
  {
    var sign, zeros := PaddedDecimalParts(s, n);
  }
}
