/** Vectors over the reals: inner products, norms, cosines. */
module Vectors {
  import opened Numbers

  type Vector = seq<real>

  /** The square root, a library: all that is used of it is that it is the root of its argument. */
  ghost predicate IsSqrt(sqrt: RealFunction) {
    forall x: real :: x >= 0.0 ==> sqrt(x) >= 0.0 && sqrt(x) * sqrt(x) == x
  }

  /** `sum(a * b for a, b in zip(u, v))`: the shorter vector decides. */
  function Dot(u: Vector, v: Vector): real {
    if u == [] || v == [] then 0.0 else u[0] * v[0] + Dot(u[1..], v[1..])
  }

  function NormSquared(v: Vector): real {
    if v == [] then 0.0 else v[0] * v[0] + NormSquared(v[1..])
  }

  /** The norm, or 1 for a vector without length: what the source divides by. */
  function Divisor(v: Vector, sqrt: RealFunction): real {
    var norm := sqrt(NormSquared(v));
    if norm == 0.0 then 1.0 else norm
  }

  function Cosine(u: Vector, v: Vector, sqrt: RealFunction): real
    requires IsSqrt(sqrt)
  {
    DivisorsPositive(u, v, sqrt);
    Dot(u, v) / (Divisor(u, sqrt) * Divisor(v, sqrt))
  }

  ghost predicate UnitOrZero(v: Vector) {
    NormSquared(v) == 1.0 || NormSquared(v) == 0.0
  }

  /** The squared norm is the inner product with itself. */
  lemma {:induction false} DotSelf(v: Vector)
    ensures Dot(v, v) == NormSquared(v)
  {
    if v != [] {
      DotSelf(v[1..]);
    }
  }

  /** Inner products are symmetric. */
  lemma {:induction false} DotCommutes(u: Vector, v: Vector)
    ensures Dot(u, v) == Dot(v, u)
  {
    if u != [] && v != [] {
      DotCommutes(u[1..], v[1..]);
    }
  }

  // ----- Arithmetic -----

  lemma SquareNonNegative(x: real)
    ensures x * x >= 0.0
  {
    if x < 0.0 {
      assert x * x == (-x) * (-x);
    }
  }

  lemma ProductMonotone(a: real, b: real, c: real, d: real)
    requires 0.0 <= a <= b && 0.0 <= c <= d
    ensures 0.0 <= a * c <= b * d
  {
    assert a * c <= b * c <= b * d;
  }

  /** Squares order non-negative numbers. */
  lemma SquareReflectsOrder(a: real, b: real)
    requires b >= 0.0 && a * a <= b * b
    ensures -b <= a <= b
  {
    var m := if a < 0.0 then -a else a;
    assert m * m == a * a;
    if m > b {
      StrictSquare(m, b);
    }
  }

  lemma StrictSquare(a: real, b: real)
    requires a > b >= 0.0
    ensures a * a > b * b
  {
    var difference := a - b;
    assert difference * a > 0.0;
    assert difference * b >= 0.0;
    assert a * a - b * b == difference * a + difference * b;
  }

  lemma NormNonNegative(v: Vector)
    ensures NormSquared(v) >= 0.0
  {
    if v != [] {
      SquareNonNegative(v[0]);
      NormNonNegative(v[1..]);
    }
  }

  // ----- Cauchy-Schwarz -----

  /** Twice a number is at most a sum whose terms' product is at least its square. */
  lemma GeometricMean(w: real, u: real, v: real)
    requires u >= 0.0 && v >= 0.0 && w * w <= u * v
    ensures 2.0 * w <= u + v
  {
    SquareNonNegative(u - v);
    assert (u + v) * (u + v) == (u - v) * (u - v) + 4.0 * (u * v);
    assert (2.0 * w) * (2.0 * w) == 4.0 * (w * w);
    SquareReflectsOrder(2.0 * w, u + v);
  }

  lemma CrossTerm(x: real, y: real, d: real, a: real, b: real)
    requires a >= 0.0 && b >= 0.0 && d * d <= a * b
    ensures 2.0 * (x * y * d) <= x * x * b + y * y * a
  {
    var u, v := x * x * b, y * y * a;
    SquareNonNegative(x);
    SquareNonNegative(y);
    SquareNonNegative(d);
    ProductMonotone(0.0, x * x, 0.0, b);
    ProductMonotone(0.0, y * y, 0.0, a);
    var k := (x * x) * (y * y);
    ProductMonotone(0.0, x * x, 0.0, y * y);
    SquareOfProduct(x, y, d);
    ProductMonotone(k, k, d * d, a * b);
    ProductRegroup(x * x, y * y, a, b);
    GeometricMean(x * y * d, u, v);
  }

  lemma SquareOfProduct(x: real, y: real, d: real)
    ensures (x * y * d) * (x * y * d) == (x * x) * (y * y) * (d * d)
  {
    var p := x * y;
    assert (p * d) * (p * d) == (p * p) * (d * d);
    assert p * p == (x * x) * (y * y);
  }

  lemma ProductRegroup(p: real, q: real, a: real, b: real)
    ensures (p * b) * (q * a) == (p * q) * (a * b)
  {
    assert (p * b) * (q * a) == p * (b * (q * a));
    assert b * (q * a) == q * (a * b);
    assert p * (q * (a * b)) == (p * q) * (a * b);
  }

  /** The square of `d` is at most the product of `a` and `b`. */
  ghost predicate Bounded(d: real, a: real, b: real) {
    a >= 0.0 && b >= 0.0 && d * d <= a * b
  }

  /** The inductive step, for one more component `x`, `y`: `e`, `p` and `q` are the new sums. */
  lemma CauchyStep(x: real, y: real, d: real, a: real, b: real, e: real, p: real, q: real)
    requires Bounded(d, a, b)
    requires e == x * y + d && p == x * x + a && q == y * y + b
    ensures Bounded(e, p, q)
  {
    SquareNonNegative(x);
    SquareNonNegative(y);
    CrossTerm(x, y, d, a, b);
    ExpandSquare(x * y, d);
    ExpandProduct(x * x, a, y * y, b);
    assert (x * y) * (x * y) == (x * x) * (y * y);
    assert x * x * b == (x * x) * b && y * y * a == (y * y) * a;
    assert e * e == (x * y) * (x * y) + 2.0 * ((x * y) * d) + d * d;
    assert p * q == (x * x) * (y * y) + (x * x) * b + (y * y) * a + a * b;
  }

  lemma ExpandSquare(p: real, d: real)
    ensures (p + d) * (p + d) == p * p + 2.0 * (p * d) + d * d
  {
  }

  lemma ExpandProduct(p: real, a: real, q: real, b: real)
    ensures (p + a) * (q + b) == p * q + p * b + q * a + a * b
  {
  }

  lemma EmptyIsBounded(u: Vector, v: Vector)
    requires u == [] || v == []
    ensures Bounded(Dot(u, v), NormSquared(u), NormSquared(v))
  {
    NormNonNegative(u);
    NormNonNegative(v);
    ProductMonotone(0.0, NormSquared(u), 0.0, NormSquared(v));
  }

  /** The squared inner product is at most the product of the squared norms. */
  lemma {:induction false} CauchySchwarz(u: Vector, v: Vector)
    ensures Bounded(Dot(u, v), NormSquared(u), NormSquared(v))
  {
    if u == [] || v == [] {
      EmptyIsBounded(u, v);
    } else {
      CauchySchwarz(u[1..], v[1..]);
      CauchyStep(u[0], v[0], Dot(u[1..], v[1..]), NormSquared(u[1..]), NormSquared(v[1..]),
                 Dot(u, v), NormSquared(u), NormSquared(v));
    }
  }

  // ----- Cosines -----

  lemma DivisorPositive(v: Vector, sqrt: RealFunction)
    requires IsSqrt(sqrt)
    ensures Divisor(v, sqrt) > 0.0
    ensures Divisor(v, sqrt) * Divisor(v, sqrt) == NormSquared(v) || NormSquared(v) == 0.0
  {
    NormNonNegative(v);
    var norm := sqrt(NormSquared(v));
    assert norm * norm == NormSquared(v);
  }

  lemma DivisorsPositive(u: Vector, v: Vector, sqrt: RealFunction)
    requires IsSqrt(sqrt)
    ensures Divisor(u, sqrt) * Divisor(v, sqrt) > 0.0
  {
    DivisorPositive(u, sqrt);
    DivisorPositive(v, sqrt);
  }

  lemma QuotientBounds(d: real, p: real)
    requires p > 0.0 && -p <= d <= p
    ensures -1.0 <= d / p <= 1.0
  {
    assert d / p * p == d;
  }

  lemma BoundByRoots(d: real, p: real, q: real, m: real, n: real)
    requires p > 0.0 && q > 0.0 && p * p == m && q * q == n && d * d <= m * n
    ensures -(p * q) <= d <= p * q
  {
    ProductRegroup(p, p, q, q);
    SquareReflectsOrder(d, p * q);
  }

  lemma QuotientByRoots(d: real, p: real, q: real, m: real, n: real)
    requires p > 0.0 && q > 0.0 && (p * p == m || m == 0.0) && (q * q == n || n == 0.0) && Bounded(d, m, n)
    ensures p * q > 0.0 && -1.0 <= d / (p * q) <= 1.0
  {
    if m == 0.0 || n == 0.0 {
      assert m * n == 0.0;
      SquareReflectsOrder(d, 0.0);
    } else {
      BoundByRoots(d, p, q, m, n);
      QuotientBounds(d, p * q);
    }
  }

  /** A cosine lies between -1 and 1. */
  lemma CosineBounds(u: Vector, v: Vector, sqrt: RealFunction)
    requires IsSqrt(sqrt)
    ensures -1.0 <= Cosine(u, v, sqrt) <= 1.0
  {
    DivisorPositive(u, sqrt);
    DivisorPositive(v, sqrt);
    CauchySchwarz(u, v);
    QuotientByRoots(Dot(u, v), Divisor(u, sqrt), Divisor(v, sqrt), NormSquared(u), NormSquared(v));
  }

  lemma RootOfOne(x: real)
    requires x >= 0.0 && x * x == 1.0
    ensures x == 1.0
  {
    SquareReflectsOrder(x, 1.0);
    SquareReflectsOrder(1.0, x);
  }

  lemma UnitDivisor(v: Vector, sqrt: RealFunction)
    requires IsSqrt(sqrt) && UnitOrZero(v)
    ensures Divisor(v, sqrt) == 1.0
  {
    var norm := sqrt(NormSquared(v));
    assert norm >= 0.0 && norm * norm == NormSquared(v);
    if NormSquared(v) == 1.0 {
      RootOfOne(norm);
    } else {
      SquareReflectsOrder(norm, 0.0);
    }
  }

  /** On vectors of norm one or zero the cosine is the inner product. */
  lemma CosineIsDot(u: Vector, v: Vector, sqrt: RealFunction)
    requires IsSqrt(sqrt) && UnitOrZero(u) && UnitOrZero(v)
    ensures Cosine(u, v, sqrt) == Dot(u, v)
  {
    UnitDivisor(u, sqrt);
    UnitDivisor(v, sqrt);
  }
}
