/** Three-component vectors over the reals, standing in for glm::vec3, and
    glm::length, which the model takes as a parameter. */
module Vectors {

  datatype Vec3 = Vec3(x: real, y: real, z: real)

  const Zero: Vec3 := Vec3(0.0, 0.0, 0.0)

  function Add(a: Vec3, b: Vec3): Vec3 {
    Vec3(a.x + b.x, a.y + b.y, a.z + b.z)
  }

  function Sub(a: Vec3, b: Vec3): Vec3 {
    Vec3(a.x - b.x, a.y - b.y, a.z - b.z)
  }

  function Neg(a: Vec3): Vec3 {
    Vec3(-a.x, -a.y, -a.z)
  }

  function Scale(c: real, a: Vec3): Vec3 {
    Vec3(c * a.x, c * a.y, c * a.z)
  }

  /** Component-wise division by a scalar, glm's `v / c`. */
  function Div(a: Vec3, c: real): Vec3
    requires c != 0.0
  {
    Vec3(a.x / c, a.y / c, a.z / c)
  }

  function Dot(a: Vec3, b: Vec3): real {
    a.x * b.x + a.y * b.y + a.z * b.z
  }

  /** The identity. Squares are written `u * Same(u)` so that the solver
      never meets a product of a term with itself, which it handles badly. */
  function Same(u: real): real {
    u
  }

  function Sq(u: real): (r: real)
    ensures 0.0 <= r
    ensures r == 0.0 <==> u == 0.0
  {
    SqSign(u);
    u * Same(u)
  }

  lemma SqSign(u: real)
    ensures 0.0 <= u * Same(u)
    ensures u * Same(u) == 0.0 <==> u == 0.0
  {
    if u < 0.0 {
      MulPos(-u, -Same(u));
    } else if 0.0 < u {
      MulPos(u, Same(u));
    }
  }

  lemma MulPos(u: real, v: real)
    requires 0.0 < u && 0.0 < v
    ensures 0.0 < u * v
  {
  }

  lemma SqDiff(a: real, b: real)
    ensures Sq(b) - Sq(a) == (b - a) * (b + a)
  {
    assert b * Same(b) - a * Same(a) == (b - a) * (b + a);
  }

  lemma SqLess(a: real, b: real)
    requires 0.0 <= a < b
    ensures Sq(a) < Sq(b)
  {
    SqDiff(a, b);
    MulPos(b - a, b + a);
  }

  lemma SqNeg(u: real)
    ensures Sq(-u) == Sq(u)
  {
    assert (-u) * Same(-u) == u * Same(u);
  }

  lemma SqMul(c: real, u: real)
    ensures Sq(c * u) == Sq(c) * Sq(u)
  {
    assert c * u * Same(c * u) == (c * Same(c)) * (u * Same(u));
  }

  lemma Distrib3(k: real, p: real, q: real, s: real)
    ensures k * (p + q + s) == k * p + k * q + k * s
  {
  }

  /** The squared Euclidean length, glm::dot(v, v). */
  function LengthSq(a: Vec3): (r: real)
    ensures 0.0 <= r
    ensures r == 0.0 <==> a == Zero
  {
    Sq(a.x) + Sq(a.y) + Sq(a.z)
  }

  /** `r` is the non-negative square root of `x`. */
  ghost predicate IsSqrt(r: real, x: real) {
    0.0 <= r && Sq(r) == x
  }

  /** A number has one non-negative square root. */
  lemma SqrtUnique(a: real, b: real, x: real)
    requires IsSqrt(a, x) && IsSqrt(b, x)
    ensures a == b
  {
    if a < b {
      SqLess(a, b);
    } else if b < a {
      SqLess(b, a);
    }
  }

  /** A square root compared with a bound, without the root: `s < r`
      exactly when `r` is positive and `x < r^2`. */
  lemma SqrtLess(s: real, x: real, r: real)
    requires IsSqrt(s, x)
    ensures s < r <==> 0.0 < r && x < Sq(r)
  {
    if s < r {
      SqLess(s, r);
    } else if 0.0 < r && r < s {
      SqLess(r, s);
    }
  }

  /** `length` is glm::length: the non-negative square root of the squared
      length. The property reaches a proof only through LengthOf, so the
      squares behind it stay out of proofs that do not ask for them. */
  ghost predicate IsLengthFn(length: Vec3 -> real) {
    forall a: Vec3 {:trigger LengthOf(length, a)} :: IsSqrt(LengthOf(length, a), LengthSq(a))
  }

  ghost function LengthOf(length: Vec3 -> real, a: Vec3): real {
    length(a)
  }

  /** `sqrt` is std::sqrt on the non-negative reals; like IsLengthFn, the
      property reaches a proof only through RootOf. */
  ghost predicate IsSqrtFn(sqrt: real -> real) {
    forall x: real {:trigger RootOf(sqrt, x)} :: 0.0 <= x ==> IsSqrt(RootOf(sqrt, x), x)
  }

  ghost function RootOf(sqrt: real -> real, x: real): real {
    sqrt(x)
  }

  lemma SqrtIsRoot(sqrt: real -> real, x: real)
    requires IsSqrtFn(sqrt) && 0.0 <= x
    ensures IsSqrt(sqrt(x), x)
  {
    assert IsSqrt(RootOf(sqrt, x), x);
  }

  /** glm::dot(v, v) is the squared length of v. */
  lemma DotSelf(a: Vec3)
    ensures Dot(a, a) == LengthSq(a)
  {
  }

  lemma LengthIsRoot(length: Vec3 -> real, a: Vec3)
    requires IsLengthFn(length)
    ensures IsSqrt(length(a), LengthSq(a))
  {
    assert IsSqrt(LengthOf(length, a), LengthSq(a));
  }

  /** A length is non-negative and zero only for the zero vector. */
  lemma LengthZero(length: Vec3 -> real, a: Vec3)
    requires IsLengthFn(length)
    ensures 0.0 <= length(a)
    ensures length(a) == 0.0 <==> a == Zero
  {
    LengthIsRoot(length, a);
  }

  lemma SubZero(a: Vec3, b: Vec3)
    ensures Sub(a, b) == Zero <==> a == b
  {
  }

  /** The distance between two points does not depend on their order. */
  lemma LengthSqSwap(a: Vec3, b: Vec3)
    ensures LengthSq(Sub(a, b)) == LengthSq(Sub(b, a))
  {
    SqNeg(a.x - b.x);
    SqNeg(a.y - b.y);
    SqNeg(a.z - b.z);
  }

  lemma LengthSwap(length: Vec3 -> real, a: Vec3, b: Vec3)
    requires IsLengthFn(length)
    ensures length(Sub(a, b)) == length(Sub(b, a))
  {
    LengthSqSwap(a, b);
    LengthIsRoot(length, Sub(a, b));
    LengthIsRoot(length, Sub(b, a));
    SqrtUnique(length(Sub(a, b)), length(Sub(b, a)), LengthSq(Sub(a, b)));
  }

  /** Scaling a vector by c scales its squared length by c^2. */
  lemma LengthSqScale(c: real, a: Vec3)
    ensures LengthSq(Scale(c, a)) == Sq(c) * LengthSq(a)
  {
    SqMul(c, a.x);
    SqMul(c, a.y);
    SqMul(c, a.z);
    Distrib3(Sq(c), Sq(a.x), Sq(a.y), Sq(a.z));
  }
}

/** The optional result of a search, standing in for a null pointer. */
module Options {
  datatype Option<T> = None | Some(value: T)
}
