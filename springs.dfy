/** A damped spring between two particles, with a stiffening force and a
    maximum-stretch constraint (src/springs.cpp). The endpoints are held as
    positions in the simulation's particle list. */
module Springs {
  import opened Vectors
  import opened Particles

  datatype Spring = Spring(p1: nat, p2: nat, stiffness: real, damping: real, restLength: real)

  /** The constructor: the rest length is the distance between the two
      endpoints at the moment the spring is made. */
  function NewSpring(i: nat, j: nat, a: Vec3, b: Vec3, k: real, d: real, length: Vec3 -> real): (r: Spring)
    requires IsLengthFn(length)
    ensures r.p1 == i && r.p2 == j && r.stiffness == k && r.damping == d
    ensures r.restLength == length(Sub(a, b))
    ensures 0.0 <= r.restLength
    ensures r.restLength == 0.0 <==> a == b
  {
    LengthZero(length, Sub(a, b));
    SubZero(a, b);
    Spring(i, j, k, d, length(Sub(a, b)))
  }

  /** The factor applied to the Hooke force: 1 up to 10% stretch, the cube
      of the stretch ratio beyond it. */
  function Stiffening(ratio: real): (r: real)
    ensures 1.0 <= r
    ensures ratio <= 1.1 ==> r == 1.0
    ensures 1.1 < ratio ==> ratio < r
  {
    if 1.1 < ratio then CubeExceeds(ratio); ratio * Same(ratio) * Same(ratio) else 1.0
  }

  lemma CubeExceeds(r: real)
    requires 1.1 < r
    ensures r < r * Same(r) * Same(r)
  {
    MulPos(r - 1.0, r + 1.0);
    assert r * Same(r) - 1.0 == (r - 1.0) * (r + 1.0);
    MulPos(r * Same(r) - 1.0, r);
    assert r * Same(r) * Same(r) - r == (r * Same(r) - 1.0) * r;
  }

  /** The force applyForces pushes onto the first endpoint (the second gets
      its opposite): the stiffened Hooke force along the spring plus damping
      of the relative velocity along the spring. */
  function TotalForce(s: Spring, e1: PState, e2: PState, length: Vec3 -> real): (f: Vec3)
    requires IsLengthFn(length) && s.restLength != 0.0 && e1.position != e2.position
  {
    var delta := Sub(e2.position, e1.position);
    SubZero(e2.position, e1.position);
    LengthZero(length, delta);
    var len := length(delta);
    var direction := Div(delta, len);
    var displacement := len - s.restLength;
    var multiplier := Stiffening(len / s.restLength);
    var springForce := Scale(s.stiffness * displacement * multiplier, direction);
    var relativeVelocity := Sub(Sub(e2.position, e2.prevPosition), Sub(e1.position, e1.prevPosition));
    var dampingForce := Scale(s.damping * Dot(relativeVelocity, direction), direction);
    Add(springForce, dampingForce)
  }

  /** The two endpoints after applyForces. */
  function ForcesApplied(s: Spring, e1: PState, e2: PState, length: Vec3 -> real): (r: (PState, PState))
    requires IsLengthFn(length) && s.restLength != 0.0
    requires e1.mass != 0.0 && e2.mass != 0.0
    ensures SameButAcceleration(e1, r.0) && SameButAcceleration(e2, r.1)
    ensures e1.position == e2.position ==> r == (e1, e2)
  {
    LengthZero(length, Sub(e2.position, e1.position));
    SubZero(e2.position, e1.position);
    if length(Sub(e2.position, e1.position)) == 0.0 then (e1, e2)
    else
      var f := TotalForce(s, e1, e2, length);
      (WithForce(e1, f), WithForce(e2, Neg(f)))
  }

  /** The two endpoints after satisfyConstraint: a spring stretched beyond
      120% of its rest length is pulled back to exactly that length, the
      correction split between free endpoints and given wholly to the free
      one when the other is pinned. */
  function Constrained(s: Spring, e1: PState, e2: PState, length: Vec3 -> real): (r: (PState, PState))
    requires IsLengthFn(length)
    ensures SameButPosition(e1, r.0) && SameButPosition(e2, r.1)
    ensures e1.pinned ==> r.0 == e1
    ensures e2.pinned ==> r.1 == e2
    ensures length(Sub(e2.position, e1.position)) <= s.restLength * 1.2 ==> r == (e1, e2)
  {
    var delta := Sub(e2.position, e1.position);
    var len := length(delta);
    if len == 0.0 then (e1, e2)
    else
      var maxLength := s.restLength * 1.2;
      if maxLength < len then
        var excess := len - maxLength;
        var correction := Scale(excess * 0.5, Div(delta, len));
        if !e1.pinned && !e2.pinned then
          (e1.(position := Add(e1.position, correction)), e2.(position := Sub(e2.position, correction)))
        else if e1.pinned && !e2.pinned then
          (e1, e2.(position := Sub(e2.position, Scale(2.0, correction))))
        else if !e1.pinned && e2.pinned then
          (e1.(position := Add(e1.position, Scale(2.0, correction))), e2)
        else
          (e1, e2)
      else (e1, e2)
  }

  /** Newton's third law: the spring's forces on its endpoints are equal and
      opposite, so the total momentum change m1 * da1 + m2 * da2 is zero. */
  lemma ForcesBalance(s: Spring, e1: PState, e2: PState, length: Vec3 -> real)
    requires IsLengthFn(length) && s.restLength != 0.0
    requires e1.mass != 0.0 && e2.mass != 0.0
    ensures var r := ForcesApplied(s, e1, e2, length);
      Add(Scale(e1.mass, Sub(r.0.acceleration, e1.acceleration)),
          Scale(e2.mass, Sub(r.1.acceleration, e2.acceleration))) == Zero
  {
    var r := ForcesApplied(s, e1, e2, length);
    if e1.position != e2.position {
      SubZero(e2.position, e1.position);
      var f := TotalForce(s, e1, e2, length);
      ForceLaw(e1, f);
      ForceLaw(e2, Neg(f));
    }
  }

  /** A spring at its rest length whose endpoints move together exerts no
      force. */
  lemma RestingSpringIsIdle(s: Spring, e1: PState, e2: PState, length: Vec3 -> real)
    requires IsLengthFn(length) && s.restLength != 0.0
    requires e1.mass != 0.0 && e2.mass != 0.0
    requires length(Sub(e2.position, e1.position)) == s.restLength
    requires Sub(e1.position, e1.prevPosition) == Sub(e2.position, e2.prevPosition)
    ensures ForcesApplied(s, e1, e2, length) == (e1, e2)
  {
    if e1.position != e2.position {
      SubZero(e2.position, e1.position);
      assert TotalForce(s, e1, e2, length) == Zero;
      NoForce(e1);
      NoForce(e2);
    }
  }

  lemma NoForce(p: PState)
    requires p.mass != 0.0
    ensures WithForce(p, Zero) == p
    ensures WithForce(p, Neg(Zero)) == p
  {
  }

  /** A spring just built between two particles at rest exerts no force on
      them: the rest length is taken from their positions. */
  lemma NewSpringIsIdle(i: nat, j: nat, a: Vec3, b: Vec3, k: real, d: real, m1: real, m2: real,
                        length: Vec3 -> real)
    requires IsLengthFn(length) && a != b && m1 != 0.0 && m2 != 0.0
    ensures var s := NewSpring(i, j, a, b, k, d, length);
      ForcesApplied(s, Spawned(a, m1), Spawned(b, m2), length) == (Spawned(a, m1), Spawned(b, m2))
  {
    LengthSwap(length, a, b);
    RestingSpringIsIdle(NewSpring(i, j, a, b, k, d, length), Spawned(a, m1), Spawned(b, m2), length);
  }

  /** When both endpoints are free, the correction moves them by opposite
      amounts, so their midpoint stays put. */
  lemma ConstraintKeepsMidpoint(s: Spring, e1: PState, e2: PState, length: Vec3 -> real)
    requires IsLengthFn(length) && !e1.pinned && !e2.pinned
    ensures var r := Constrained(s, e1, e2, length);
      Add(r.0.position, r.1.position) == Add(e1.position, e2.position)
  {
  }

  /** An over-stretched spring with a free endpoint comes out of
      satisfyConstraint pointing the same way, its separation scaled by
      1.2 * rest / length. */
  lemma ConstraintKeepsDirection(s: Spring, e1: PState, e2: PState, length: Vec3 -> real)
    requires IsLengthFn(length) && !(e1.pinned && e2.pinned)
    requires 0.0 <= s.restLength
    requires s.restLength * 1.2 < length(Sub(e2.position, e1.position))
    ensures var r := Constrained(s, e1, e2, length);
      Sub(r.1.position, r.0.position)
        == Scale(s.restLength * 1.2 / length(Sub(e2.position, e1.position)), Sub(e2.position, e1.position))
  {
    var delta := Sub(e2.position, e1.position);
    var len := length(delta);
    var maxLength := s.restLength * 1.2;
    var correction := Scale((len - maxLength) * 0.5, Div(delta, len));
    var r := Constrained(s, e1, e2, length);
    var sep := Sub(r.1.position, r.0.position);
    assert sep == Sub(delta, Scale(2.0, correction));
    Shortened(delta.x, len, maxLength);
    Shortened(delta.y, len, maxLength);
    Shortened(delta.z, len, maxLength);
  }

  /** ... and its length is then exactly 120% of the rest length. */
  lemma {:induction false} ConstraintRestoresMaxLength(s: Spring, e1: PState, e2: PState, length: Vec3 -> real)
    requires IsLengthFn(length) && !(e1.pinned && e2.pinned)
    requires 0.0 <= s.restLength
    requires s.restLength * 1.2 < length(Sub(e2.position, e1.position))
    ensures var r := Constrained(s, e1, e2, length);
      length(Sub(r.1.position, r.0.position)) == s.restLength * 1.2
  {
    var delta := Sub(e2.position, e1.position);
    var len := length(delta);
    var maxLength := s.restLength * 1.2;
    var c := maxLength / len;
    var r := Constrained(s, e1, e2, length);
    var sep := Sub(r.1.position, r.0.position);
    ConstraintKeepsDirection(s, e1, e2, length);
    ScaledLength(length, c, delta, maxLength);
  }

  /** Scaling a vector of length len by m / len gives a vector of length m. */
  lemma ScaledLength(length: Vec3 -> real, c: real, delta: Vec3, m: real)
    requires IsLengthFn(length) && 0.0 <= m && 0.0 < length(delta) && c == m / length(delta)
    ensures length(Scale(c, delta)) == m
  {
    var len := length(delta);
    LengthIsRoot(length, delta);
    LengthIsRoot(length, Scale(c, delta));
    LengthSqScale(c, delta);
    SqMul(c, len);
    DivCancelRight(m, len);
    assert IsSqrt(m, LengthSq(Scale(c, delta)));
    SqrtUnique(length(Scale(c, delta)), m, LengthSq(Scale(c, delta)));
  }

  lemma Shortened(d: real, len: real, maxLength: real)
    requires 0.0 < len
    ensures d - 2.0 * ((len - maxLength) * 0.5 * (d / len)) == maxLength / len * d
  {
  }

  lemma DivCancelRight(m: real, len: real)
    requires len != 0.0
    ensures m / len * len == m
  {
  }

  /** Pulling one endpoint of a spring the other way. */
  method ApplyForces(s: Spring, a: Particle, b: Particle, length: Vec3 -> real)
    requires IsLengthFn(length) && s.restLength != 0.0
    requires a.mass != 0.0 && b.mass != 0.0
    modifies a, b
    ensures (a.State(), b.State()) == ForcesApplied(s, old(a.State()), old(b.State()), length)
  {
    var delta := Sub(b.position, a.position);
    var currentLength := length(delta);
    if currentLength == 0.0 {
      return;
    }
    LengthZero(length, delta);
    SubZero(b.position, a.position);
    var e1, e2 := a.State(), b.State();
    var f := TotalForce(s, e1, e2, length);
    a.AddForce(f);
    b.AddForce(Neg(f));
  }

  method SatisfyConstraint(s: Spring, a: Particle, b: Particle, length: Vec3 -> real)
    requires IsLengthFn(length)
    modifies a, b
    ensures (a.State(), b.State()) == Constrained(s, old(a.State()), old(b.State()), length)
  {
    var delta := Sub(b.position, a.position);
    var currentLength := length(delta);
    if currentLength == 0.0 {
      return;
    }
    var maxLength := s.restLength * 1.2;
    if currentLength > maxLength {
      var excess := currentLength - maxLength;
      var direction := Div(delta, currentLength);
      var correction := Scale(excess * 0.5, direction);
      if !a.pinned && !b.pinned {
        a.position := Add(a.position, correction);
        b.position := Sub(b.position, correction);
      } else if a.pinned && !b.pinned {
        b.position := Sub(b.position, Scale(2.0, correction));
      } else if !a.pinned && b.pinned {
        a.position := Add(a.position, Scale(2.0, correction));
      }
    }
  }
}
