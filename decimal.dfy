/**
  Decimal text for natural numbers: the formatting used for the `count=`
  operand and the digit parsing used on dd's byte counts.
 */
module Decimal {

  predicate IsDigit(c: char)
  {
    '0' <= c <= '9'
  }

  predicate AllDigits(s: string)
  {
    forall i :: 0 <= i < |s| ==> IsDigit(s[i])
  }

  function DigitChar(d: nat): (c: char)
    requires d < 10
    ensures IsDigit(c)
  {
    ['0', '1', '2', '3', '4', '5', '6', '7', '8', '9'][d]
  }

  function DigitValue(c: char): (d: nat)
    requires IsDigit(c)
    ensures d < 10
  {
    (c as int - '0' as int) as nat
  }

  /** String interpolation of a non-negative integer: its decimal digits, without leading zeros. */
  function NatToString(n: nat): (s: string)
    ensures s != [] && AllDigits(s)
    ensures |s| > 1 ==> s[0] != '0'
  {
    if n < 10 then [DigitChar(n)] else NatToString(n / 10) + [DigitChar(n % 10)]
  }

  /** Digits without a leading zero (a lone "0" included): the form `NatToString` produces. */
  predicate Canonical(s: string)
  {
    s != [] && AllDigits(s) && (s[0] != '0' || |s| == 1)
  }

  /**
    The value of a string of ASCII decimal digits, as `Int(...)` reads it
    before its overflow check; formatting the value of canonical digits gives
    the digits back.
   */
  function DigitsValue(s: string): (n: nat)
    requires AllDigits(s)
    ensures Canonical(s) ==> NatToString(n) == s
  {
    if s == [] then 0
    else
      var v := DigitsValue(s[..|s| - 1]);
      CanonicalStep(s, v);
      10 * v + DigitValue(s[|s| - 1])
  }

  /**
    One more digit: if the digits before it format back from `v` whenever they
    are canonical, the whole string formats back from its value.
   */
  lemma CanonicalStep(s: string, v: nat)
    requires s != [] && AllDigits(s)
    requires |s| == 1 ==> v == 0
    requires Canonical(s[..|s| - 1]) ==> NatToString(v) == s[..|s| - 1]
    ensures Canonical(s) ==> NatToString(10 * v + DigitValue(s[|s| - 1])) == s
  {
    if Canonical(s) {
      var init, c := s[..|s| - 1], s[|s| - 1];
      CharRoundTrip(c);
      assert s == init + [c];
      if |s| == 1 {
        assert init == [];
      } else {
        assert init[0] == s[0];
        assert Canonical(init);
        assert NatToString(0) == "0";
        AppendDigit(v, DigitValue(c));
      }
    }
  }

  lemma DigitRoundTrip(d: nat)
    requires d < 10
    ensures DigitValue(DigitChar(d)) == d
  {
  }

  lemma CharRoundTrip(c: char)
    requires IsDigit(c)
    ensures DigitChar(DigitValue(c)) == c
  {
  }

  /** Formatting a number with one more digit appended: the digits of the number, then that digit. */
  lemma AppendDigit(v: nat, d: nat)
    requires d < 10
    ensures v > 0 ==> NatToString(10 * v + d) == NatToString(v) + [DigitChar(d)]
  {
    if v > 0 {
      assert (10 * v + d) / 10 == v && (10 * v + d) % 10 == d;
    }
  }

  /** Parsing the formatted number gives the number back. */
  lemma {:induction false} NatToStringRoundTrip(n: nat)
    ensures DigitsValue(NatToString(n)) == n
  {
    var s := NatToString(n);
    if n < 10 {
      DigitRoundTrip(n);
      assert s[..|s| - 1] == [];
    } else {
      NatToStringRoundTrip(n / 10);
      DigitRoundTrip(n % 10);
      assert s[..|s| - 1] == NatToString(n / 10);
    }
  }
}
