/** Floor division, from the two inequalities that define it. */
module Arithmetic {

  lemma MulMonotone(d: nat, a: int, b: int)
    requires a <= b
    ensures d * a <= d * b
  {
  }

  lemma FloorBounds(x: int, d: int)
    requires d > 0 && x >= 0
    ensures x / d >= 0 && d * (x / d) <= x < d * (x / d) + d
  {
    assert x == d * (x / d) + x % d;
  }

  lemma FloorUnique(d: int, a: int, b: int, x: int)
    requires d > 0 && d * a <= x < d * a + d && d * b <= x < d * b + d
    ensures a == b
  {
    if a < b {
      MulMonotone(d, a + 1, b);
    } else if b < a {
      MulMonotone(d, b + 1, a);
    }
  }
}
