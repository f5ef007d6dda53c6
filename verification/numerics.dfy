/** Scalar helpers shared by the prior-box model.

    Single-precision floats are modelled as exact `real`s: IEEE rounding,
    infinities and NaN are not part of the model. */
module Numerics {

  /** Absolute tolerance the layer uses both to deduplicate aspect ratios and
      to recognise the unit ratio in the forward pass. */
  const Eps: real := 0.000001

  function Abs(x: real): (r: real)
    ensures r >= 0.0
    ensures r == x || r == -x
  {
    if x < 0.0 then -x else x
  }

  /** `fabs(a - b) < 1e-6`: the layer's notion of two ratios being the same. */
  predicate Near(a: real, b: real)
  {
    Abs(a - b) < Eps
  }

  /** C's `(int)x` conversion: truncation toward zero. */
  function TruncToInt(x: real): (n: int)
    ensures 0.0 <= x ==> 0 <= n && n as real <= x < n as real + 1.0
    ensures x < 0.0 ==> n <= 0 && n as real - 1.0 < x <= n as real
  {
    if x >= 0.0 then x.Floor else -((-x).Floor)
  }

  /** `std::min(std::max(x, 0), 1)`. */
  function Clamp01(x: real): (r: real)
    ensures 0.0 <= r <= 1.0
    ensures 0.0 <= x <= 1.0 ==> r == x
    ensures x < 0.0 ==> r == 0.0
    ensures 1.0 < x ==> r == 1.0
  {
    var lo := if x < 0.0 then 0.0 else x;
    if lo > 1.0 then 1.0 else lo
  }

  /** Clamping is idempotent. */
  lemma Clamp01Idempotent(x: real)
    ensures Clamp01(Clamp01(x)) == Clamp01(x)
  {
  }

  /** Euclidean division is determined by any quotient/remainder pair. */
  lemma DivModUnique(x: int, d: int, q: int, r: int)
    requires 0 < d && 0 <= r < d && x == q * d + r
    ensures x / d == q && x % d == r
  {
    var q', r' := x / d, x % d;
    assert x == q' * d + r';
    if q' > q {
      MulMonotone(q + 1, q', d);
    } else if q' < q {
      MulMonotone(q' + 1, q, d);
    }
  }

  lemma MulMonotone(a: int, b: int, d: int)
    requires a <= b && 0 <= d
    ensures a * d <= b * d
  {
    assert b * d - a * d == (b - a) * d;
  }

  /** A quotient stays below `q` when the dividend stays below `q * d`. */
  lemma DivLess(x: int, q: int, d: int)
    requires 0 < d && 0 <= x < q * d
    ensures 0 <= x / d < q
  {
    if x / d >= q {
      MulMonotone(q, x / d, d);
    }
  }

  /** A flat index below `rows * cols * n` has non-zero factors, and its
      position within a group of `n == count * per` splits into a group of
      `per` below `count`. */
  lemma FlatIndexBounds(b: int, rows: int, cols: int, n: int, count: int, per: int)
    requires 0 <= b < rows * cols * n && 0 <= rows && 0 <= cols && 0 <= count && 0 <= per
    requires n == count * per
    ensures 0 < cols && 0 < n && 0 < per
    ensures 0 <= b / n && 0 <= (b / n) / cols && 0 <= (b / n) % cols
    ensures 0 <= (b % n) / per < count && 0 <= (b % n) % per < per
  {
    DivLess(b % n, count, per);
  }

  /** Index `q * d + r` with `r < d` and `q < m` lies below `m * d` and
      splits back into `q` and `r`. */
  lemma SplitIndex(m: int, d: int, q: int, r: int)
    requires 0 <= q < m && 0 <= r < d
    ensures 0 <= q * d + r < m * d
    ensures (q * d + r) / d == q && (q * d + r) % d == r
  {
    MulMonotone(q + 1, m, d);
    DivModUnique(q * d + r, d, q, r);
  }
}
