/** A cloth particle integrated with position Verlet (src/particle.cpp). */
module Particles {
  import opened Vectors

  /** The value of a particle: everything `Particle` stores. */
  datatype PState = PState(
    position: Vec3,
    prevPosition: Vec3,
    acceleration: Vec3,
    mass: real,
    pinned: bool)

  /** `q` differs from `p` at most in its acceleration. */
  predicate SameButAcceleration(p: PState, q: PState) {
    q.position == p.position && q.prevPosition == p.prevPosition
    && q.mass == p.mass && q.pinned == p.pinned
  }

  /** `q` differs from `p` at most in its position. */
  predicate SameButPosition(p: PState, q: PState) {
    q.prevPosition == p.prevPosition && q.acceleration == p.acceleration
    && q.mass == p.mass && q.pinned == p.pinned
  }

  /** A particle as the constructor leaves it: at rest at `start`, free. */
  function Spawned(start: Vec3, m: real): (r: PState)
    ensures r.position == start && r.prevPosition == start
    ensures r.acceleration == Zero && r.mass == m && !r.pinned
  {
    PState(start, start, Zero, m, false)
  }

  /** The particle after addForce(f): a = F / m is added to the acceleration. */
  function WithForce(p: PState, f: Vec3): (r: PState)
    requires p.mass != 0.0
    ensures SameButAcceleration(p, r)
  {
    p.(acceleration := Add(p.acceleration, Div(f, p.mass)))
  }

  /** The particle after updateVerlet(dt). A pinned particle is untouched; a
      free one moves by its last displacement plus a * dt^2, remembers where
      it was and forgets its acceleration. */
  function Stepped(p: PState, dt: real): (r: PState)
    ensures p.pinned ==> r == p
    ensures r.mass == p.mass && r.pinned == p.pinned
    ensures !p.pinned ==> r.prevPosition == p.position && r.acceleration == Zero
  {
    if p.pinned then p
    else
      p.(position := Add(Add(p.position, Sub(p.position, p.prevPosition)),
                         Scale(dt * dt, p.acceleration)),
         prevPosition := p.position,
         acceleration := Zero)
  }

  /** The particle after pinTo(pos): pinned at `pos`, at rest there. */
  function PinnedTo(p: PState, pos: Vec3): (r: PState)
    ensures r.pinned && r.position == pos && r.prevPosition == pos
    ensures r.acceleration == p.acceleration && r.mass == p.mass
  {
    p.(pinned := true, position := pos, prevPosition := pos)
  }

  /** Newton's second law: addForce changes the acceleration by exactly
      F / m, that is, m times the change is the force. */
  lemma ForceLaw(p: PState, f: Vec3)
    requires p.mass != 0.0
    ensures Scale(p.mass, Sub(WithForce(p, f).acceleration, p.acceleration)) == f
  {
    var m := p.mass;
    DivCancel(f.x, m, p.acceleration.x);
    DivCancel(f.y, m, p.acceleration.y);
    DivCancel(f.z, m, p.acceleration.z);
  }

  lemma DivCancel(u: real, m: real, a: real)
    requires m != 0.0
    ensures m * ((a + u / m) - a) == u
  {
  }

  /** Forces accumulate: two addForce calls equal one with the sum, so the
      order in which forces are added does not matter. */
  lemma ForcesAdd(p: PState, f: Vec3, g: Vec3)
    requires p.mass != 0.0
    ensures WithForce(WithForce(p, f), g) == WithForce(p, Add(f, g))
  {
    DivAdd(p.acceleration.x, f.x, g.x, p.mass);
    DivAdd(p.acceleration.y, f.y, g.y, p.mass);
    DivAdd(p.acceleration.z, f.z, g.z, p.mass);
  }

  lemma DivAdd(a: real, u: real, v: real, m: real)
    requires m != 0.0
    ensures (a + u / m) + v / m == a + (u + v) / m
  {
  }

  /** A Verlet step carries the velocity (the displacement per frame) over
      and adds a * dt^2 to it. */
  lemma VerletVelocity(p: PState, dt: real)
    requires !p.pinned
    ensures Sub(Stepped(p, dt).position, Stepped(p, dt).prevPosition)
         == Add(Sub(p.position, p.prevPosition), Scale(dt * dt, p.acceleration))
  {
  }

  /** A free particle at rest with no acceleration stays where it is. */
  lemma RestIsEquilibrium(p: PState, dt: real)
    requires p.position == p.prevPosition && p.acceleration == Zero
    ensures Stepped(p, dt).position == p.position
    ensures Stepped(p, dt).prevPosition == p.position
  {
  }

  /** A free particle starting from rest moves by exactly a * dt^2 in its
      first step (no factor 1/2: position Verlet with prevPosition ==
      position). */
  lemma FirstStepFromRest(p: PState, dt: real)
    requires !p.pinned && p.position == p.prevPosition
    ensures Stepped(p, dt).position == Add(p.position, Scale(dt * dt, p.acceleration))
  {
  }

  /** A pinned particle stays where it was pinned, whatever forces act on
      it and however many steps pass. */
  lemma PinnedStaysPut(p: PState, pos: Vec3, f: Vec3, dt: real)
    requires p.mass != 0.0
    ensures Stepped(WithForce(PinnedTo(p, pos), f), dt).position == pos
  {
  }

  class Particle {
    var position: Vec3
    var prevPosition: Vec3
    var acceleration: Vec3
    const mass: real
    var pinned: bool

    function State(): PState
      reads this
    {
      PState(position, prevPosition, acceleration, mass, pinned)
    }

    constructor (startPos: Vec3, m: real)
      ensures State() == Spawned(startPos, m)
    {
      position := startPos;
      prevPosition := startPos;
      acceleration := Zero;
      mass := m;
      pinned := false;
    }

    method AddForce(force: Vec3)
      requires mass != 0.0
      modifies this
      ensures State() == WithForce(old(State()), force)
    {
      acceleration := Add(acceleration, Div(force, mass));
    }

    method UpdateVerlet(dt: real)
      modifies this
      ensures State() == Stepped(old(State()), dt)
    {
      if pinned {
        return;
      }
      var temp := position;
      position := Add(position, Add(Sub(position, prevPosition), Scale(dt * dt, acceleration)));
      prevPosition := temp;
      acceleration := Zero;
    }

    method PinTo(pos: Vec3)
      modifies this
      ensures State() == PinnedTo(old(State()), pos)
    {
      pinned := true;
      position := pos;
      prevPosition := pos;
    }
  }
}
