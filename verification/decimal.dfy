/** Decimal rendering of non-negative integers, as a template literal prints
    a number, and the fact that the rendering is one-to-one. Tile ids are
    built from it. */
module Decimal {

  predicate IsDigit(c: char) {
    '0' <= c <= '9'
  }

  function DigitChar(d: nat): (c: char)
    requires d < 10
    ensures IsDigit(c)
  {
    ('0' as int + d) as char
  }

  /** The shortest decimal numeral of `n`: no sign, no leading zero. */
  function Digits(n: nat): (s: string)
    ensures |s| >= 1
    ensures forall i :: 0 <= i < |s| ==> IsDigit(s[i])
    ensures n < 10 <==> |s| == 1
    decreases n
  {
    if n < 10 then [DigitChar(n)] else Digits(n / 10) + [DigitChar(n % 10)]
  }

  /** Two numbers with the same numeral are the same number. */
  lemma {:induction false} DigitsInjective(a: nat, b: nat)
    requires Digits(a) == Digits(b)
    ensures a == b
    decreases a
  {
    if a < 10 {
      assert |Digits(b)| == 1;
      assert DigitChar(a) == Digits(a)[0] == Digits(b)[0] == DigitChar(b);
    } else {
      assert b >= 10;
      var sa, sb := Digits(a), Digits(b);
      assert sa == Digits(a / 10) + [DigitChar(a % 10)];
      assert sb == Digits(b / 10) + [DigitChar(b % 10)];
      assert DigitChar(a % 10) == sa[|sa| - 1] == sb[|sb| - 1] == DigitChar(b % 10);
      assert Digits(a / 10) == sa[..|sa| - 1] == sb[..|sb| - 1] == Digits(b / 10);
      DigitsInjective(a / 10, b / 10);
    }
  }
}
