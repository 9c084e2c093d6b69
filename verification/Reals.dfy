/** Absolute value and the signs of products, shared by the geometry and the prices. */
module Reals {
  function Abs(x: real): real {
    if x < 0.0 then -x else x
  }

  lemma ProductIsNotNegative(a: real, b: real)
    requires a >= 0.0 && b >= 0.0
    ensures a * b >= 0.0
  {
  }

  /** A share of a quantity lies between nothing and the whole of it. */
  lemma ShareOf(d: real, t: real)
    requires d >= 0.0 && 0.0 <= t <= 1.0
    ensures 0.0 <= d * t <= d
  {
    ProductIsNotNegative(d, t);
    ProductIsNotNegative(d, 1.0 - t);
    assert d * (1.0 - t) == d - d * t;
  }
}
