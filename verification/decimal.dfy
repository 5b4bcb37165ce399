/** Decimal text for integers: Rust's `Display` for integers (used in timestamps and in
    conflict and error messages), the `{:02}` zero-padded form the command-line front-end
    prints times with, and `str::parse::<i32>`. */
module Decimal {
  import opened Types

  const I32Min: int := -0x8000_0000
  const I32Max: int := 0x7FFF_FFFF

  predicate IsDigit(c: char) {
    '0' <= c <= '9'
  }

  predicate AllDigits(s: string) {
    forall k :: 0 <= k < |s| ==> IsDigit(s[k])
  }

  function DigitChar(d: nat): (c: char)
    requires d < 10
    ensures IsDigit(c)
  {
    ('0' as int + d) as char
  }

  function DigitValue(c: char): (d: nat)
    requires IsDigit(c)
    ensures d < 10
  {
    c as int - '0' as int
  }

  /** The number a string of decimal digits denotes; leading zeros are allowed. */
  function DigitsValue(s: string): nat
    requires AllDigits(s)
    decreases |s|
  {
    if |s| == 0 then 0 else DigitsValue(s[..|s| - 1]) * 10 + DigitValue(s[|s| - 1])
  }

  /** `n.to_string()` for an unsigned integer: the shortest digit string denoting `n`. */
  function NatToString(n: nat): (s: string)
    ensures |s| >= 1 && AllDigits(s)
    ensures DigitsValue(s) == n
    ensures s[0] == '0' ==> n == 0
    decreases n
  {
    if n < 10 then [DigitChar(n)]
    else
      var prefix := NatToString(n / 10);
      var s := prefix + [DigitChar(n % 10)];
      assert s[..|s| - 1] == prefix;
      s
  }

  /** `i.to_string()` for a signed integer; `IntToStringDigits` states what it denotes. */
  function IntToString(i: int): (s: string)
    ensures |s| >= 1 && (s[0] == '-' <==> i < 0)
  {
    if i < 0 then "-" + NatToString(-i) else NatToString(i)
  }

  /** The decimal form of `i`: a `-` exactly for negative numbers, then the shortest
      digits of the magnitude. */
  lemma IntToStringDigits(i: int)
    ensures i >= 0 ==> AllDigits(IntToString(i)) && DigitsValue(IntToString(i)) == i
    ensures i < 0 ==> var s := IntToString(i);
              |s| >= 2 && AllDigits(s[1..]) && DigitsValue(s[1..]) == -i && s[1] != '0'
  {
    if i < 0 {
      var d := NatToString(-i);
      assert ("-" + d)[1..] == d;
    }
  }

  /** `format!("{:02}", n)`: at least two characters, zero-padded after the sign. For a
      non-negative `n` the result is digits denoting `n`. */
  function Pad2(n: int): (s: string)
    ensures |s| >= 2
    ensures n >= 0 ==> AllDigits(s) && DigitsValue(s) == n
    ensures n < 0 ==> s == IntToString(n)
  {
    IntToStringDigits(n);
    if 0 <= n < 10 then
      LeadingZero(IntToString(n));
      "0" + IntToString(n)
    else
      IntToString(n)
  }

  /** Rust's `s.parse::<i32>()`: an optional `+` or `-`, then one or more ASCII digits
      (leading zeros allowed, no whitespace), denoting a value in the `i32` range. */
  function ParseI32(s: string): (r: Option<int>)
    ensures r.Some? ==> I32Min <= r.value <= I32Max
    ensures r.Some? ==> |s| >= 1 && (IsDigit(s[0]) || s[0] == '+' || s[0] == '-')
  {
    if |s| == 0 then None
    else
      var negative := s[0] == '-';
      var digits := if s[0] == '+' || s[0] == '-' then s[1..] else s;
      if |digits| == 0 || !AllDigits(digits) then None
      else
        var magnitude: int := DigitsValue(digits);
        var v := if negative then -magnitude else magnitude;
        if I32Min <= v <= I32Max then Some(v) else None
  }

  /** `s` is an optional sign followed by the digits `d`, denoting `v` in the `i32` range. */
  predicate SignedForm(s: string, sign: string, d: string, v: int) {
    && (sign == "" || sign == "+" || sign == "-")
    && s == sign + d
    && |d| >= 1 && AllDigits(d)
    && v == (if sign == "-" then -(DigitsValue(d) as int) else DigitsValue(d))
    && I32Min <= v <= I32Max
  }

  /** Exactly the strings of the form sign-then-digits parse, each to the value it denotes:
      no whitespace, no other character, at least one digit, and within range. */
  lemma ParseI32Iff(s: string, v: int)
    ensures ParseI32(s) == Some(v) <==> exists sign, d :: SignedForm(s, sign, d, v)
  {
    if ParseI32(s) == Some(v) {
      var sign := if s[0] == '+' || s[0] == '-' then s[..1] else "";
      var d := s[|sign|..];
      assert s == sign + d;
      assert SignedForm(s, sign, d, v);
    }
    if exists sign, d :: SignedForm(s, sign, d, v) {
      var sign, d :| SignedForm(s, sign, d, v);
      if sign == "" {
        assert s == d && IsDigit(s[0]);
      } else {
        assert s[0] == sign[0] && s[1..] == d;
      }
    }
  }

  /** A sign is accepted but not doubled, and neither letters nor spaces are skipped. */
  lemma ParseI32Examples()
    ensures ParseI32("+8") == Some(8)
    ensures ParseI32("-0") == Some(0)
    ensures ParseI32("1a") == None
    ensures ParseI32("8 ") == None
    ensures ParseI32("+-8") == None
    ensures ParseI32("") == None
  {
    assert "+8"[1..] == "8" && "8"[..0] == "";
    assert "-0"[1..] == "0" && "0"[..0] == "";
    assert !IsDigit("1a"[1]);
    assert !IsDigit("8 "[1]);
    assert "+-8"[1..] == "-8" && !IsDigit("-8"[0]);
  }

  /** An unsigned digit string within the `i32` range parses to the number it denotes. */
  lemma ParseUnsigned(s: string)
    requires |s| >= 1 && AllDigits(s) && DigitsValue(s) <= I32Max
    ensures ParseI32(s) == Some(DigitsValue(s))
  {
  }

  /** A leading zero does not change the value of a digit string. */
  lemma {:induction false} LeadingZero(s: string)
    requires AllDigits(s)
    ensures AllDigits("0" + s) && DigitsValue("0" + s) == DigitsValue(s)
    decreases |s|
  {
    var z := "0" + s;
    assert AllDigits(z) by {
      assert forall k :: 1 <= k < |z| ==> z[k] == s[k - 1];
    }
    if |s| > 0 {
      var init := s[..|s| - 1];
      assert AllDigits(init) by {
        assert forall k :: 0 <= k < |init| ==> init[k] == s[k];
      }
      LeadingZero(init);
      assert z[..|z| - 1] == "0" + init;
    }
  }

  /** Parsing the decimal rendering of any `i32` gives the value back. */
  lemma ParseIntToString(i: int)
    requires I32Min <= i <= I32Max
    ensures ParseI32(IntToString(i)) == Some(i)
  {
    var s := IntToString(i);
    if i < 0 {
      assert s[1..] == NatToString(-i);
    }
  }

  /** Parsing the `{:02}` rendering of any `i32` gives the value back. */
  lemma {:induction false} ParsePad2(n: int)
    requires I32Min <= n <= I32Max
    ensures ParseI32(Pad2(n)) == Some(n)
  {
    if 0 <= n < 10 {
      var d := NatToString(n);
      LeadingZero(d);
      var s := "0" + d;
      assert Pad2(n) == s;
      assert s[0] == '0';
    } else {
      ParseIntToString(n);
    }
  }

  /** The rendering of an integer never contains a character outside `-0123456789`. */
  lemma IntToStringChars(i: int)
    ensures forall k :: 0 <= k < |IntToString(i)| ==>
              IsDigit(IntToString(i)[k]) || IntToString(i)[k] == '-'
  {
  }
}
