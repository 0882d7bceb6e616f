/** Numbers written in decimal digits. */
module Decimals {
  function Digit(d: nat): char
    requires d < 10
  {
    "0123456789"[d]
  }

  function Decimal(n: nat): (r: string)
    ensures r != [] && forall i :: 0 <= i < |r| ==> '0' <= r[i] <= '9'
    ensures |r| == 1 <==> n < 10
  {
    if n < 10 then [Digit(n)] else Decimal(n / 10) + [Digit(n % 10)]
  }

  lemma DigitInjective(a: nat, b: nat)
    requires a < 10 && b < 10
    ensures Digit(a) == Digit(b) <==> a == b
  {
  }

  lemma {:induction false} DecimalInjective(a: nat, b: nat)
    ensures Decimal(a) == Decimal(b) <==> a == b
    decreases a + b
  {
    if Decimal(a) == Decimal(b) {
      var x, y := Decimal(a), Decimal(b);
      if a < 10 && b < 10 {
        DigitInjective(a, b);
        assert x[0] == y[0];
      } else if a >= 10 && b >= 10 {
        assert x[|x| - 1] == Digit(a % 10) && y[|y| - 1] == Digit(b % 10);
        DigitInjective(a % 10, b % 10);
        assert Decimal(a / 10) == x[..|x| - 1] == y[..|y| - 1] == Decimal(b / 10);
        DecimalInjective(a / 10, b / 10);
      }
    }
  }
}
