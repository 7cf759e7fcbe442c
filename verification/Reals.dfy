/** Facts about products, quotients and whole parts of real numbers. */
module Reals {

  function Floor(x: real): int {
    x.Floor
  }

  function Ceil(x: real): int {
    -((-x).Floor)
  }

  predicate Whole(x: real) {
    x == Floor(x) as real
  }

  lemma ProductAtMost(a: real, b: real, c: real)
    requires c >= 0.0 && a <= b
    ensures a * c <= b * c
  {
    assert (b - a) * c >= 0.0;
  }

  lemma ProductLess(a: real, b: real, c: real)
    requires c > 0.0 && a < b
    ensures a * c < b * c
  {
    assert (b - a) * c > 0.0;
  }

  lemma CancelAtMost(a: real, b: real, c: real)
    requires c > 0.0 && a * c <= b * c
    ensures a <= b
  {
    if b < a {
      ProductLess(b, a, c);
    }
  }

  lemma CancelLess(a: real, b: real, c: real)
    requires c > 0.0 && a * c < b * c
    ensures a < b
  {
    if b <= a {
      ProductAtMost(b, a, c);
    }
  }

  lemma QuotientPositive(x: real, y: real)
    requires x > 0.0 && y > 0.0
    ensures x / y > 0.0
  {
  }

  lemma QuotientTimes(x: real, y: real)
    requires y != 0.0
    ensures x / y * y == x
  {
  }

  lemma QuotientIs(x: real, y: real, q: real)
    requires y != 0.0 && q * y == x
    ensures x / y == q
  {
  }

  lemma FloorBounds(x: real)
    ensures Floor(x) as real <= x < Floor(x) as real + 1.0
  {
  }

  lemma FloorIs(x: real, n: int)
    requires n as real <= x < (n + 1) as real
    ensures Floor(x) == n
  {
  }

  lemma WholeBelowFloor(n: int, y: real)
    requires n as real <= y
    ensures n as real <= Floor(y) as real
  {
    var f := Floor(y);
    FloorBounds(y);
    assert n as real < (f + 1) as real;
    assert n <= f;
  }

  lemma CastProduct(m: int, n: int)
    ensures (m * n) as real == m as real * n as real
  {
  }

  /** m floor(x) <= floor(m x). */
  lemma ScaledFloor(m: nat, x: real, y: real)
    requires m >= 1 && y == m as real * x
    ensures m as real * Floor(x) as real <= Floor(y) as real
  {
    var n := Floor(x);
    FloorBounds(x);
    CastProduct(m, n);
    ProductAtMost(n as real, x, m as real);
    assert (m * n) as real <= y;
    WholeBelowFloor(m * n, y);
  }

  lemma FloorOfDifference(n: int, x: real)
    ensures Floor(n as real - x) == n - Ceil(x)
  {
    FloorBounds(-x);
    FloorIs(n as real - x, n - Ceil(x));
  }

  lemma WholeNumber(x: real, k: int)
    requires x == k as real
    ensures Whole(x)
  {
    FloorIs(x, k);
  }

  lemma WholeCeil(x: real)
    requires Whole(x)
    ensures Ceil(x) as real == x
  {
    FloorIs(-x, -Floor(x));
  }

  lemma WholeDifference(n: int, x: real)
    ensures Whole(n as real - x) <==> Whole(x)
  {
    hide Floor;
    if Whole(x) {
      WholeNumber(n as real - x, n - Floor(x));
    }
    if Whole(n as real - x) {
      WholeNumber(x, n - Floor(n as real - x));
    }
  }

  lemma TimesZero(a: real, zero: real)
    requires zero == 0.0
    ensures a * zero == 0.0
  {
  }
}
