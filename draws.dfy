/** Random draws are injected: every call of Python's `random.random()` is a
    parameter `u` with 0 <= u < 1, and `random.uniform(a, b)` is CPython's own
    formula `a + (b - a) * random()`. */
module Draws {

  /** `u` could have been returned by `random.random()`. */
  predicate IsUnit(u: real) {
    0.0 <= u < 1.0
  }

  lemma ScaleUnit(d: real, u: real)
    requires d >= 0.0 && IsUnit(u)
    ensures 0.0 <= d * u <= d
    ensures d > 0.0 ==> d * u < d
  {
    assert d * (1.0 - u) >= 0.0;
    assert d > 0.0 ==> d * (1.0 - u) > 0.0;
  }

  /** `random.uniform(a, b)` for the unit draw `u`: a value in `[a, b)` (or
      `a` itself when the range is a single point). */
  function Uniform(a: real, b: real, u: real): (r: real)
    requires a <= b && IsUnit(u)
    ensures a <= r <= b
    ensures a < b ==> r < b
  {
    var d := b - a;
    ScaleUnit(d, u);
    assert a <= a + d * u <= a + d;
    a + d * u
  }
}
