/** Decimal rendering of non-negative integers: `n.toString()` and
    `n.toString().padStart(2, "0")`, with the digit parser that inverts them. */
module Decimal {

  predicate IsDigit(ch: char) {
    '0' <= ch <= '9'
  }

  predicate AllDigits(s: string) {
    forall i :: 0 <= i < |s| ==> IsDigit(s[i])
  }

  function DigitChar(d: nat): (ch: char)
    requires d < 10
    ensures IsDigit(ch)
  {
    ('0' as int + d) as char
  }

  function DigitValue(ch: char): (d: nat)
    requires IsDigit(ch)
    ensures d < 10 && DigitChar(d) == ch
  {
    ch as int - '0' as int
  }

  /** `n.toString()`: the shortest decimal numeral for `n`. */
  function NatToString(n: nat): (r: string)
    ensures |r| >= 1 && AllDigits(r)
    ensures r[0] == '0' ==> n == 0
  {
    if n < 10 then [DigitChar(n)]
    else NatToString(n / 10) + [DigitChar(n % 10)]
  }

  /** The value of a string of decimal digits (leading zeros allowed). */
  function DigitsValue(s: string): nat
    requires AllDigits(s)
  {
    if |s| == 0 then 0
    else DigitsValue(s[..|s| - 1]) * 10 + DigitValue(s[|s| - 1])
  }

  /** Reading back the numeral gives the number: `toString` is injective. */
  lemma {:induction false} NatToStringRoundTrip(n: nat)
    ensures DigitsValue(NatToString(n)) == n
  {
    if n >= 10 {
      var r := NatToString(n);
      NatToStringRoundTrip(n / 10);
      assert r[..|r| - 1] == NatToString(n / 10);
    }
  }

  /** Years with four digits render as exactly four characters. */
  lemma NatToStringFourDigits(n: nat)
    ensures 1000 <= n <= 9999 ==> |NatToString(n)| == 4
  {
    if 1000 <= n <= 9999 {
      assert |NatToString(n / 1000)| == 1;
      assert |NatToString(n / 100)| == 2;
      assert |NatToString(n / 10)| == 3;
    }
  }

  /** `s.padStart(width, fill)`: left-fill up to `width` characters. */
  function PadStart(s: string, width: nat, fill: char): (r: string)
    ensures |r| == if |s| >= width then |s| else width
    ensures r[|r| - |s|..] == s
    ensures forall i :: 0 <= i < |r| - |s| ==> r[i] == fill
  {
    if |s| >= width then s else seq(width - |s|, _ => fill) + s
  }

  /** `n.toString().padStart(2, "0")`: the two-digit field of a date or time. */
  function Pad2(n: nat): (r: string)
    ensures AllDigits(r)
    ensures n < 100 ==> |r| == 2 && DigitsValue(r) == n
  {
    var digits := NatToString(n);
    var r := PadStart(digits, 2, '0');
    if n < 10 then
      assert r == ['0'] + digits;
      PadOneDigit(n);
      r
    else
      assert r == digits;
      NatToStringRoundTrip(n);
      r
  }

  /** A single digit behind a `0` reads as itself. */
  lemma PadOneDigit(n: nat)
    requires n < 10
    ensures var r := ['0'] + NatToString(n);
      AllDigits(r) && |r| == 2 && DigitsValue(r) == n
  {
    var r := ['0'] + NatToString(n);
    assert NatToString(n) == [DigitChar(n)];
    assert r[..1] == "0";
    assert DigitsValue(r[..1]) == 0;
  }
}
