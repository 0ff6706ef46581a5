/** Products and quotients of reals, one step at a time. */
module Reals {
  lemma {:induction false} MulLe(c: real, x: real, y: real)
    requires c >= 0.0 && x <= y
    ensures c * x <= c * y
  {}

  lemma {:induction false} MulLt(c: real, x: real, y: real)
    requires c > 0.0 && x < y
    ensures x * c < y * c
  {}

  /** A quotient of what is at most `d` times the divisor. */
  lemma {:induction false} DivBounds(x: real, top: real, d: real, whole: real)
    requires whole > 0.0 && 0.0 <= x <= top && top == d * whole
    ensures 0.0 <= x / whole <= d
  {
    var q := x / whole;
    assert q * whole == x;
    if q > d { MulLt(whole, d, q); }
    if q < 0.0 { MulLt(whole, q, 0.0); }
  }

  /** What two numbers multiply with to the same product: the larger number with the smaller. */
  lemma {:induction false} SameProduct(x: real, a: real, y: real, b: real, n: real)
    requires x * a == n && y * b == n && n >= 0.0 && 0.0 < a <= b
    ensures x >= y >= 0.0
  {
    if y < 0.0 { MulLt(b, y, 0.0); }
    MulLe(y, a, b);
    if x < y { MulLt(a, x, y); }
  }
}
