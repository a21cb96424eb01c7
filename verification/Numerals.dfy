/**
 Numbers as text, as a specification of Convert and ConvertHex (water/base/log_stream.cc): the
 numerals, and what reading them back gives.
 */
module Numerals {
  import opened Wrappers

  datatype Base = Ten | Sixteen {
    function Radix(): nat {
      if Ten? then 10 else 16
    }

    // Multiplication and division by the base, so that arithmetic stays linear.
    function Times(n: nat): nat {
      if Ten? then n * 10 else n * 16
    }

    function Quotient(n: nat): (q: nat)
      ensures q <= n && (n > 0 ==> q < n)
      ensures q == 0 <==> n < Radix()
    {
      if Ten? then n / 10 else n / 16
    }

    function Remainder(n: nat): (r: nat)
      ensures r < Radix() && n == Times(Quotient(n)) + r
    {
      if Ten? then n % 10 else n % 16
    }

    function Power(k: nat): nat {
      if k == 0 then 1 else Times(Power(k - 1))
    }
  }

  function DigitValue(c: char): int {
    if '0' <= c <= '9' then c as int - '0' as int
    else if 'A' <= c <= 'F' then c as int - 'A' as int + 10
    else -1
  }

  function Digit(d: nat): (c: char)
    requires d < 16
    ensures DigitValue(c) == d
    ensures c == '0' <==> d == 0
    ensures c != '-'
  {
    if d < 10 then ('0' as int + d) as char else ('A' as int + d - 10) as char
  }

  // The characters for digits, and their values.
  lemma DigitsAreTheseCharacters(d: nat)
    requires d < 16
    ensures Digit(d) == "0123456789ABCDEF"[d] && DigitValue("0123456789ABCDEF"[d]) == d
  {
  }

  // The numeral of n, without leading zeros.
  function Numeral(n: nat, b: Base): (s: string)
    ensures |s| > 0
  {
    (if n < b.Radix() then "" else Numeral(b.Quotient(n), b)) + [Digit(b.Remainder(n))]
  }

  function Decimal(v: int): (s: string)
    ensures |s| > 0
  {
    if v < 0 then "-" + Numeral(-v, Ten) else Numeral(v, Ten)
  }

  // Reading a numeral from the left; None if some character is no digit.
  function ParseNumeral(s: string, b: Base): Option<nat> {
    if s == "" then Some(0)
    else
      match ParseNumeral(s[..|s| - 1], b)
      case None => None
      case Some(front) =>
        var d := DigitValue(s[|s| - 1]);
        if 0 <= d < b.Radix() then Some(b.Times(front) + d) else None
  }

  function ParseDecimal(s: string): Option<int> {
    if s == "" then None
    else if s[0] == '-' then
      match ParseNumeral(s[1..], Ten)
      case None => None
      case Some(n) => var v: int := n; Some(-v)
    else
      match ParseNumeral(s, Ten)
      case None => None
      case Some(n) => Some(n)
  }

  // Reading one more digit.
  lemma ParseAppend(front: string, n: nat, b: Base, d: nat)
    requires ParseNumeral(front, b) == Some(n) && d < b.Radix()
    ensures ParseNumeral(front + [Digit(d)], b) == Some(b.Times(n) + d)
  {
    ParseLast(front + [Digit(d)], front, b);
  }

  lemma ParseLast(s: string, front: string, b: Base)
    requires s != "" && front == s[..|s| - 1] && ParseNumeral(front, b).Some?
    requires 0 <= DigitValue(s[|s| - 1]) < b.Radix()
    ensures ParseNumeral(s, b) == Some(b.Times(ParseNumeral(front, b).value) + DigitValue(s[|s| - 1]))
  {
  }

  lemma {:induction false} NumeralRoundTrip(n: nat, b: Base)
    ensures ParseNumeral(Numeral(n, b), b) == Some(n)
  {
    if n < b.Radix() {
      ParseAppend("", 0, b, n);
    } else {
      NumeralRoundTrip(b.Quotient(n), b);
      ParseAppend(Numeral(b.Quotient(n), b), b.Quotient(n), b, b.Remainder(n));
    }
  }

  lemma {:induction false} NumeralHasNoLeadingZero(n: nat, b: Base)
    ensures Numeral(n, b)[0] != '-'
    ensures Numeral(n, b)[0] == '0' ==> n == 0 && Numeral(n, b) == "0"
  {
    if n >= b.Radix() {
      NumeralHasNoLeadingZero(b.Quotient(n), b);
    }
  }

  lemma {:induction false} NumeralLength(n: nat, b: Base, k: nat)
    requires k > 0 && n < b.Power(k)
    ensures |Numeral(n, b)| <= k
  {
    if n >= b.Radix() {
      assert b.Power(k) == b.Times(b.Power(k - 1));
      assert k > 1 by {
        assert b.Power(0) == 1;
      }
      NumeralLength(b.Quotient(n), b, k - 1);
    }
  }

  // Printing and reading back gives the value, for every integer.
  lemma DecimalRoundTrip(v: int)
    ensures ParseDecimal(Decimal(v)) == Some(v)
  {
    var n := if v < 0 then -v else v;
    NumeralRoundTrip(n, Ten);
    NumeralHasNoLeadingZero(n, Ten);
    if v < 0 {
      assert Decimal(v)[1..] == Numeral(n, Ten);
    }
  }

  lemma PowersOfTen()
    ensures Ten.Power(19) == 10_000_000_000_000_000_000
    ensures Ten.Power(20) == 100_000_000_000_000_000_000
  {
    assert Ten.Power(4) == 10_000;
    assert Ten.Power(8) == 100_000_000;
    assert Ten.Power(12) == 1_000_000_000_000;
    assert Ten.Power(16) == 10_000_000_000_000_000;
  }

  // The longest numerals of the 64-bit types.
  lemma DecimalIsShort(v: int)
    requires -0x8000_0000_0000_0000 <= v < 0x1_0000_0000_0000_0000
    ensures |Decimal(v)| <= 20
  {
    PowersOfTen();
    if v < 0 {
      NumeralLength(-v, Ten, 19);
    } else {
      NumeralLength(v, Ten, 20);
    }
  }

  // No leading zeros, and a minus sign exactly in front of the negative numbers.
  lemma DecimalIsCanonical(v: int)
    ensures Decimal(v)[0] == '0' ==> Decimal(v) == "0"
    ensures Decimal(v)[0] == '-' <==> v < 0
    ensures v < 0 ==> Decimal(v)[1] != '0'
  {
    NumeralHasNoLeadingZero(if v < 0 then -v else v, Ten);
  }
}
