/**
 * Decimal rendering of integers, as Rust's `format!("{}", x)` writes an `i32`:
 * an optional '-' followed by the digits, most significant first, with no
 * leading zeros. ParseInt is its inverse; the round trip is proved below and
 * is what makes every formatted message of the model readable back.
 */
module Decimal {
  import opened Wrappers

  predicate IsDigit(c: char) { '0' <= c <= '9' }

  predicate AllDigits(s: string) { forall i :: 0 <= i < |s| ==> IsDigit(s[i]) }

  function DigitChar(d: nat): (c: char)
    requires d < 10
    ensures IsDigit(c)
  {
    (48 + d) as char
  }

  function DigitValue(c: char): (d: nat)
    requires IsDigit(c)
    ensures d < 10
  {
    c as int - 48
  }

  /** The digits of `n`; only zero itself starts with '0'. */
  function NatToString(n: nat): (s: string)
    ensures s != [] && AllDigits(s)
    ensures s[0] == '0' ==> n == 0
    decreases n
  {
    if n < 10 then [DigitChar(n)] else NatToString(n / 10) + [DigitChar(n % 10)]
  }

  /** `{}` of an integer: a '-' exactly for negative numbers, then the digits. */
  function IntToString(i: int): (s: string)
    ensures s != [] && ' ' !in s
    ensures s[0] == '-' <==> i < 0
    ensures AllDigits(s[1..])
    ensures var digits := if i < 0 then s[1..] else s;
      digits != [] && AllDigits(digits) && (digits[0] == '0' ==> i == 0)
  {
    if i < 0 then "-" + NatToString(-i) else NatToString(i)
  }

  /** The value of a string of digits, most significant first. */
  function ParseNat(s: string): nat
    requires AllDigits(s)
  {
    if s == [] then 0 else ParseNat(s[..|s| - 1]) * 10 + DigitValue(s[|s| - 1])
  }

  /** Reads back an optionally negative decimal number; None if `s` is not one. */
  function ParseInt(s: string): Option<int>
  {
    if s == [] then None
    else if s[0] == '-' then
      if |s| > 1 && AllDigits(s[1..]) then Some(-(ParseNat(s[1..]) as int)) else None
    else if AllDigits(s) then Some(ParseNat(s))
    else None
  }

  lemma {:induction false} ParseNatToString(n: nat)
    ensures ParseNat(NatToString(n)) == n
    decreases n
  {
    var s := NatToString(n);
    if n >= 10 {
      assert s[..|s| - 1] == NatToString(n / 10);
      ParseNatToString(n / 10);
    }
  }

  /** Formatting then parsing gives the number back. */
  lemma ParseIntToString(i: int)
    ensures ParseInt(IntToString(i)) == Some(i)
  {
    if i < 0 {
      var d := NatToString(-i);
      assert IntToString(i) == "-" + d;
      assert ("-" + d)[1..] == d;
      ParseNatToString(-i);
    } else {
      var d := NatToString(i);
      assert IntToString(i) == d && d[0] != '-';
      ParseNatToString(i);
    }
  }

  /** The number after `prefix` in a message `prefix + {}`; None if the message has another shape. */
  function ParseLabelled(s: string, prefix: string): Option<int>
  {
    if prefix <= s then ParseInt(s[|prefix|..]) else None
  }

  /** A number formatted after a prefix reads back. */
  lemma ParseLabelledFormat(prefix: string, i: int)
    ensures ParseLabelled(prefix + IntToString(i), prefix) == Some(i)
  {
    var s := prefix + IntToString(i);
    assert s[..|prefix|] == prefix && s[|prefix|..] == IntToString(i);
    ParseIntToString(i);
  }
}
