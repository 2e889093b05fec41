/**
 * Arithmetic shared by the position controller: vectors of reals, the
 * AP_Math helpers it calls (constrain_float, is_zero, is_positive,
 * safe_sqrt, radians, degrees) and the square root.
 *
 * Single-precision floats are modelled as reals.  Dafny cannot construct a
 * real square root, so the square root is a function passed in by the
 * caller and constrained by IsSqrt; every function satisfying IsSqrt agrees
 * with the mathematical square root on the non-negative reals.
 */
module RealMath {

  datatype Vec2 = Vec2(x: real, y: real)
  datatype Vec3 = Vec3(x: real, y: real, z: real)

  /** FLT_EPSILON (2^-23), the tolerance of AP_Math's is_zero and is_positive. */
  const FloatEpsilon: real := 0.00000011920928955078125

  const Pi: real := 3.14159265358979323846
  const GravityMss: real := 9.80665
  const GravityCmss: real := 980.665

  /** is_zero: |v| < FLT_EPSILON. */
  predicate IsZero(v: real) {
    -FloatEpsilon < v < FloatEpsilon
  }

  /** is_positive: v >= FLT_EPSILON. */
  predicate IsPositive(v: real) {
    v >= FloatEpsilon
  }

  function Max(a: real, b: real): (r: real) {
    if a >= b then a else b
  }

  function Min(a: real, b: real): (r: real) {
    if a <= b then a else b
  }

  function Abs(a: real): (r: real) {
    if a < 0.0 then -a else a
  }

  /** constrain_float(v, lo, hi): the lower bound is compared first. */
  function Constrain(v: real, lo: real, hi: real): (r: real)
    ensures r == v || r == lo || r == hi
    ensures lo <= hi ==> lo <= r <= hi
    ensures lo <= v <= hi ==> r == v
  {
    if v < lo then lo else if v > hi then hi else v
  }

  function Radians(deg: real): (r: real) {
    deg * (Pi / 180.0)
  }

  function Degrees(rad: real): (r: real) {
    rad * (180.0 / Pi)
  }

  lemma DegreesOfRadians(deg: real)
    ensures Degrees(Radians(deg)) == deg
  {
    calc {
      Degrees(Radians(deg));
      deg * (Pi / 180.0) * (180.0 / Pi);
      deg * ((Pi / 180.0) * (180.0 / Pi));
    }
  }

  /** sqrt gives the non-negative square root of v, when v is non-negative. */
  ghost predicate SqrtAt(sqrt: real -> real, v: real) {
    0.0 <= v ==> 0.0 <= sqrt(v) && sqrt(v) * sqrt(v) == v
  }

  /**
   * What a caller-supplied square root must satisfy.  The quantifier is
   * instantiated only at the points where a proof mentions SqrtAt.
   */
  ghost predicate IsSqrt(sqrt: real -> real) {
    forall v {:trigger SqrtAt(sqrt, v)} :: SqrtAt(sqrt, v)
  }

  /** safe_sqrt: the square root, or 0 where sqrtf would give NaN. */
  function SafeSqrt(sqrt: real -> real, v: real): (r: real) {
    if v < 0.0 then 0.0 else sqrt(v)
  }

  /** norm(x, y) */
  function Norm(sqrt: real -> real, x: real, y: real): (r: real) {
    sqrt(x * x + y * y)
  }

  function Len2(v: Vec2): real {
    v.x * v.x + v.y * v.y
  }

  function Scale(v: Vec2, k: real): (r: Vec2) {
    Vec2(v.x * k, v.y * k)
  }

  /** A non-negative r whose square is v is the square root of v. */
  lemma SqrtUnique(sqrt: real -> real, v: real, r: real)
    requires IsSqrt(sqrt) && 0.0 <= v && 0.0 <= r && r * r == v
    ensures sqrt(v) == r
  {
    assert SqrtAt(sqrt, v);
    var s := sqrt(v);
    assert 0.0 <= s && s * s == v;
    assert (s - r) * (s + r) == 0.0;
    if s + r != 0.0 {
      assert s - r == (s - r) * (s + r) / (s + r);
    }
  }

  lemma SqrtOfPositive(sqrt: real -> real, v: real)
    requires IsSqrt(sqrt) && 0.0 < v
    ensures 0.0 < sqrt(v)
  {
    assert SqrtAt(sqrt, v);
  }

  /** The square root is monotone, in both directions. */
  lemma SqrtMonotone(sqrt: real -> real, a: real, b: real)
    requires IsSqrt(sqrt) && 0.0 <= a && 0.0 <= b
    ensures a <= b <==> sqrt(a) <= sqrt(b)
    ensures a < b <==> sqrt(a) < sqrt(b)
  {
    assert SqrtAt(sqrt, a) && SqrtAt(sqrt, b);
    var sa, sb := sqrt(a), sqrt(b);
    assert 0.0 <= sa && sa * sa == a;
    assert 0.0 <= sb && sb * sb == b;
    var d, t := sb - sa, sb + sa;
    assert b - a == d * t;
    if sa < sb {
      MulPositive(d, t);
    } else if sa > sb {
      MulPositive(-d, t);
      assert -d * t == a - b;
    } else {
      assert a == b;
    }
  }

  lemma MulPositive(a: real, b: real)
    requires 0.0 < a && 0.0 < b
    ensures 0.0 < a * b
  {
  }

  lemma MulNonNegative(a: real, b: real)
    requires 0.0 <= a && 0.0 <= b
    ensures 0.0 <= a * b
  {
  }

  lemma DivNonNegative(x: real, c: real)
    requires 0.0 <= x && 0.0 < c
    ensures 0.0 <= x / c
  {
    var d := x / c;
    assert d * c == x;
    if d < 0.0 {
      MulPositive(-d, c);
    }
  }

  lemma DivPositive(x: real, c: real)
    requires 0.0 < x && 0.0 < c
    ensures 0.0 < x / c
  {
    var d := x / c;
    assert d * c == x;
    if d <= 0.0 {
      MulNonNegative(-d, c);
    }
  }

  /** A product with a positive factor keeps the sign of the other factor. */
  lemma NonNegativeFactor(x: real, c: real)
    requires 0.0 <= x * c && 0.0 < c
    ensures 0.0 <= x
  {
    if x < 0.0 {
      MulPositive(-x, c);
    }
  }

  lemma DivMonotone(a: real, b: real, c: real)
    requires a <= b && 0.0 < c
    ensures a / c <= b / c
  {
    DivNonNegative(b - a, c);
    assert (b - a) / c == b / c - a / c;
  }

  lemma MulMonotone(a: real, b: real, c: real)
    requires a <= b && 0.0 <= c
    ensures a * c <= b * c
  {
    MulNonNegative(b - a, c);
    assert (b - a) * c == b * c - a * c;
  }

  /** Squares are ordered as their non-negative roots. */
  lemma SquareMonotone(a: real, b: real)
    requires 0.0 <= a <= b
    ensures a * a <= b * b
  {
    MulMonotone(a, b, a);
    MulMonotone(a, b, b);
  }

  lemma NormBasics(sqrt: real -> real, x: real, y: real)
    requires IsSqrt(sqrt)
    ensures 0.0 <= Norm(sqrt, x, y)
    ensures Norm(sqrt, x, y) * Norm(sqrt, x, y) == x * x + y * y
  {
    assert 0.0 <= x * x + y * y;
    assert SqrtAt(sqrt, x * x + y * y);
  }

  /** Comparing a norm with a bound is comparing squares. */
  lemma NormCompare(sqrt: real -> real, x: real, y: real, m: real)
    requires IsSqrt(sqrt) && 0.0 <= m
    ensures Norm(sqrt, x, y) > m <==> x * x + y * y > m * m
    ensures Norm(sqrt, x, y) <= m <==> x * x + y * y <= m * m
    ensures Norm(sqrt, x, y) >= m <==> x * x + y * y >= m * m
  {
    assert 0.0 <= x * x + y * y;
    assert 0.0 <= m * m;
    SqrtUnique(sqrt, m * m, m);
    SqrtMonotone(sqrt, x * x + y * y, m * m);
  }

  /** A vector whose squared length is m * m, m >= 0, has norm m. */
  lemma NormOfLength(sqrt: real -> real, v: Vec2, m: real)
    requires IsSqrt(sqrt) && 0.0 <= m && Len2(v) == m * m
    ensures Norm(sqrt, v.x, v.y) == m
  {
    NormBasics(sqrt, v.x, v.y);
    RootsOrdered(Norm(sqrt, v.x, v.y), m);
    RootsOrdered(m, Norm(sqrt, v.x, v.y));
  }

  /** Non-negative reals are ordered as their squares. */
  lemma RootsOrdered(s: real, t: real)
    requires 0.0 <= s && 0.0 <= t && s * s <= t * t
    ensures s <= t
  {
    assert (s - t) * (s + t) == s * s - t * t;
    if s > t {
      MulPositive(s - t, s + t);
    }
  }

  /** Scaling by a non-negative factor scales the norm by that factor. */
  lemma NormScale(sqrt: real -> real, v: Vec2, k: real)
    requires IsSqrt(sqrt) && 0.0 <= k
    ensures Norm(sqrt, v.x * k, v.y * k) == k * Norm(sqrt, v.x, v.y)
  {
    NormBasics(sqrt, v.x, v.y);
    var n := Norm(sqrt, v.x, v.y);
    assert (v.x * k) * (v.x * k) + (v.y * k) * (v.y * k) == k * k * (v.x * v.x + v.y * v.y);
    assert (k * n) * (k * n) == k * k * (n * n);
    assert 0.0 <= k * n;
    SqrtUnique(sqrt, (v.x * k) * (v.x * k) + (v.y * k) * (v.y * k), k * n);
  }

  /** Truncation toward zero, as a C cast from float to an integer type. */
  function TruncToInt(v: real): (r: int)
    ensures Abs(r as real) <= Abs(v) < Abs(r as real) + 1.0
    ensures (v >= 0.0 ==> r >= 0) && (v <= 0.0 ==> r <= 0)
  {
    if v >= 0.0 then v.Floor else -((-v).Floor)
  }
}
