/**
  Three-component vectors over the reals, standing for glm::vec3.

  Floating-point rounding is not modelled. The square root behind glm::length and
  glm::normalize cannot be defined here, so it is passed in as a function `sqrt`;
  lemmas that need a true square root require it only at the point they use
  (`SqrtAt`).
 */
module Vec {

  datatype Vec3 = Vec3(x: real, y: real, z: real)

  const Zero := Vec3(0.0, 0.0, 0.0)

  function Add(a: Vec3, b: Vec3): Vec3
  {
    Vec3(a.x + b.x, a.y + b.y, a.z + b.z)
  }

  function Sub(a: Vec3, b: Vec3): Vec3
  {
    Vec3(a.x - b.x, a.y - b.y, a.z - b.z)
  }

  function Neg(a: Vec3): Vec3
  {
    Vec3(-a.x, -a.y, -a.z)
  }

  function Scale(a: Vec3, k: real): Vec3
  {
    Vec3(a.x * k, a.y * k, a.z * k)
  }

  /** glm::dot */
  function Dot(a: Vec3, b: Vec3): real
  {
    a.x * b.x + a.y * b.y + a.z * b.z
  }

  /** glm::cross */
  function Cross(a: Vec3, b: Vec3): Vec3
  {
    Vec3(a.y * b.z - a.z * b.y, a.z * b.x - a.x * b.z, a.x * b.y - a.y * b.x)
  }

  /** glm::length2: the squared length. */
  function LengthSq(a: Vec3): real
  {
    Dot(a, a)
  }

  /** `sqrt` returns a non-negative square root of `x`. */
  predicate SqrtAt(sqrt: real -> real, x: real)
  {
    0.0 <= sqrt(x) && Square(sqrt(x)) == x
  }

  /** glm::length */
  function Length(a: Vec3, sqrt: real -> real): real
  {
    sqrt(LengthSq(a))
  }

  /**
    glm::normalize. A vector of length zero has no direction; floating point
    yields NaN components, the model yields Zero.
   */
  function Normalize(a: Vec3, sqrt: real -> real): Vec3
  {
    var l := Length(a, sqrt);
    if l == 0.0 then Zero else Scale(a, 1.0 / l)
  }

  function Square(r: real): real
  {
    r * r
  }

  /**
    The product of two positive reals is positive. The product is passed in as `m`
    so that callers receive the fact about their own term.
   */
  lemma ProductPositive(p: real, q: real, m: real)
    requires p > 0.0 && q > 0.0 && m == p * q
    ensures m > 0.0
  {
  }

  lemma SquarePositive(r: real)
    requires r != 0.0
    ensures Square(r) > 0.0
  {
    if r > 0.0 {
      ProductPositive(r, r, Square(r));
    } else {
      ProductPositive(-r, -r, Square(r));
    }
  }

  lemma SquareNonNegative(r: real)
    ensures Square(r) >= 0.0
  {
    if r != 0.0 {
      SquarePositive(r);
    }
  }

  lemma LengthSqIsSumOfSquares(a: Vec3)
    ensures LengthSq(a) == Square(a.x) + Square(a.y) + Square(a.z)
  {
  }

  lemma LengthSqNonNegative(a: Vec3)
    ensures LengthSq(a) >= 0.0
  {
    LengthSqIsSumOfSquares(a);
    SquareNonNegative(a.x);
    SquareNonNegative(a.y);
    SquareNonNegative(a.z);
  }

  /** Only the zero vector has squared length zero. */
  lemma LengthSqZero(a: Vec3)
    ensures LengthSq(a) == 0.0 <==> a == Zero
  {
    LengthSqIsSumOfSquares(a);
    SquareNonNegative(a.x);
    SquareNonNegative(a.y);
    SquareNonNegative(a.z);
    if a.x != 0.0 { SquarePositive(a.x); }
    if a.y != 0.0 { SquarePositive(a.y); }
    if a.z != 0.0 { SquarePositive(a.z); }
  }

  lemma LengthSqNeg(a: Vec3)
    ensures LengthSq(Neg(a)) == LengthSq(a)
  {
  }

  lemma LengthSqScale(a: Vec3, k: real)
    ensures LengthSq(Scale(a, k)) == Square(k) * LengthSq(a)
  {
  }

  /** With a true square root, a vector has positive length exactly when it is not Zero. */
  lemma LengthPositive(a: Vec3, sqrt: real -> real)
    requires SqrtAt(sqrt, LengthSq(a))
    ensures Length(a, sqrt) > 0.0 <==> a != Zero
  {
    LengthSqZero(a);
    var l := Length(a, sqrt);
    if l != 0.0 {
      SquarePositive(l);
    }
  }

  /** Scaling the normalized vector of `a` by `k` gives a vector of squared length `k * k`. */
  lemma NormalizeScaledLength(a: Vec3, k: real, sqrt: real -> real)
    requires SqrtAt(sqrt, LengthSq(a))
    requires a != Zero
    ensures LengthSq(Scale(Normalize(a, sqrt), k)) == Square(k)
  {
    LengthPositive(a, sqrt);
    var l := Length(a, sqrt);
    var c := (1.0 / l) * k;
    assert Normalize(a, sqrt) == Scale(a, 1.0 / l);
    ScaleScale(a, 1.0 / l, k);
    LengthSqScale(a, c);
    SquareProduct(c, l);
    assert c * l == k;
  }

  lemma ScaleScale(a: Vec3, s: real, t: real)
    ensures Scale(Scale(a, s), t) == Scale(a, s * t)
  {
  }

  lemma SquareProduct(p: real, q: real)
    ensures Square(p * q) == Square(p) * Square(q)
  {
  }
}
