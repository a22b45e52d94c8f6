/** The physics of one frame of Simulation::run (src/simulation.cpp:183-241),
    stated on the values of the particles: spring forces, gravity and wind,
    the Verlet step and five sweeps of the length constraint. */
module Physics {
  import opened Vectors
  import opened Particles
  import opened Springs
  import opened Modes

  const Gravity: real := 9.81
  /** glm::normalize(vec3(1, 0, 0)), which is the unit x axis itself. */
  const WindDirection: Vec3 := Vec3(1.0, 0.0, 0.0)
  const Lift: Vec3 := Vec3(0.0, 0.2, 0.0)
  const AirDrag: real := 0.1
  /** The smallest time step the flag's drag divides by. */
  const MinDragStep: real := 0.0001
  const ConstraintSweeps: nat := 5
  /** The longest frame the simulation integrates. */
  const MaxStep: real := 1.0 / 60.0

  /** glm::max and std::min on two numbers. */
  function Max(a: real, b: real): (r: real)
    ensures a <= r && b <= r && (r == a || r == b)
  {
    if a < b then b else a
  }

  function Min(a: real, b: real): (r: real)
    ensures r <= a && r <= b && (r == a || r == b)
  {
    if b < a then b else a
  }

  /** Every spring joins two distinct particles among the first n and has a
      non-zero rest length. */
  predicate SpringsFit(springs: seq<Spring>, n: nat) {
    forall i :: 0 <= i < |springs| ==>
      springs[i].p1 < n && springs[i].p2 < n && springs[i].p1 != springs[i].p2
      && springs[i].restLength != 0.0
  }

  predicate Massive(st: seq<PState>) {
    forall k :: 0 <= k < |st| ==> st[k].mass != 0.0
  }

  /** The particles after one spring's applyForces. */
  function SpringForced(s: Spring, st: seq<PState>, length: Vec3 -> real): (r: seq<PState>)
    requires IsLengthFn(length) && s.p1 < |st| && s.p2 < |st| && s.restLength != 0.0 && Massive(st)
    ensures |r| == |st|
    ensures forall k :: 0 <= k < |st| ==> SameButAcceleration(st[k], r[k])
  {
    var e := ForcesApplied(s, st[s.p1], st[s.p2], length);
    st[s.p1 := e.0][s.p2 := e.1]
  }

  /** The particles after one spring's satisfyConstraint. */
  function SpringConstrained(s: Spring, st: seq<PState>, length: Vec3 -> real): (r: seq<PState>)
    requires IsLengthFn(length) && s.p1 < |st| && s.p2 < |st|
    ensures |r| == |st|
    ensures forall k :: 0 <= k < |st| ==> SameButPosition(st[k], r[k])
    ensures forall k :: 0 <= k < |st| && st[k].pinned ==> r[k] == st[k]
  {
    var e := Constrained(s, st[s.p1], st[s.p2], length);
    st[s.p1 := e.0][s.p2 := e.1]
  }

  /** The particles after the spring-force loop has visited springs 0 .. n-1:
      each active spring's applyForces, in index order. */
  function ForcePass(springs: seq<Spring>, active: seq<bool>, st: seq<PState>, n: nat,
                     length: Vec3 -> real): (r: seq<PState>)
    requires IsLengthFn(length) && n <= |springs| == |active|
    requires SpringsFit(springs, |st|) && Massive(st)
    ensures |r| == |st|
    ensures forall k :: 0 <= k < |st| ==> SameButAcceleration(st[k], r[k])
  {
    if n == 0 then st
    else
      var prev := ForcePass(springs, active, st, n - 1, length);
      if active[n - 1] then SpringForced(springs[n - 1], prev, length) else prev
  }

  /** Gravity, -9.81 m along -z in COLLISION mode and along -y otherwise. */
  function Gravitated(p: PState, mode: SimMode): (r: PState)
    requires p.mass != 0.0
    ensures SameButAcceleration(p, r)
  {
    if mode == Collision then WithForce(p, Vec3(0.0, 0.0, -Gravity * p.mass))
    else WithForce(p, Vec3(0.0, -Gravity * p.mass, 0.0))
  }

  /** The flag's wind: the gust along the wind direction plus a little lift,
      then a drag against the velocity (pos - prev) / max(dt, 1e-4). */
  function Blown(p: PState, gust: real, dt: real): (r: PState)
    requires p.mass != 0.0
    ensures SameButAcceleration(p, r)
  {
    var q := WithForce(p, Add(Scale(gust, WindDirection), Lift));
    var v := Div(Sub(q.position, q.prevPosition), Max(dt, MinDragStep));
    WithForce(q, Scale(-AirDrag, v))
  }

  /** One particle after the external-force loop. */
  function ExternalForces(p: PState, mode: SimMode, gust: real, dt: real): (r: PState)
    requires p.mass != 0.0
    ensures SameButAcceleration(p, r)
  {
    var q := Gravitated(p, mode);
    if mode == Flag then Blown(q, gust, dt) else q
  }

  /** The external-force loop over all particles; particle k meets gust k. */
  function ExternalPass(st: seq<PState>, mode: SimMode, gusts: seq<real>, dt: real): (r: seq<PState>)
    requires Massive(st) && |gusts| == |st|
    ensures |r| == |st|
    ensures forall k :: 0 <= k < |st| ==> SameButAcceleration(st[k], r[k])
  {
    seq(|st|, k requires 0 <= k < |st| => ExternalForces(st[k], mode, gusts[k], dt))
  }

  /** The Verlet loop over all particles. */
  function VerletPass(st: seq<PState>, dt: real): (r: seq<PState>)
    ensures |r| == |st|
    ensures forall k :: 0 <= k < |st| ==> r[k] == Stepped(st[k], dt)
  {
    seq(|st|, k requires 0 <= k < |st| => Stepped(st[k], dt))
  }

  /** The particles after one constraint sweep has visited springs 0 .. n-1. */
  function SweepPass(springs: seq<Spring>, active: seq<bool>, st: seq<PState>, n: nat,
                     length: Vec3 -> real): (r: seq<PState>)
    requires IsLengthFn(length) && n <= |springs| == |active|
    requires SpringsFit(springs, |st|)
    ensures |r| == |st|
    ensures forall k :: 0 <= k < |st| ==> SameButPosition(st[k], r[k])
    ensures forall k :: 0 <= k < |st| && st[k].pinned ==> r[k] == st[k]
  {
    if n == 0 then st
    else
      var prev := SweepPass(springs, active, st, n - 1, length);
      if active[n - 1] then SpringConstrained(springs[n - 1], prev, length) else prev
  }

  /** `times` full constraint sweeps. */
  function Relax(springs: seq<Spring>, active: seq<bool>, st: seq<PState>, times: nat,
                 length: Vec3 -> real): (r: seq<PState>)
    requires IsLengthFn(length) && |springs| == |active|
    requires SpringsFit(springs, |st|)
    ensures |r| == |st|
    ensures forall k :: 0 <= k < |st| ==> SameButPosition(st[k], r[k])
    ensures forall k :: 0 <= k < |st| && st[k].pinned ==> r[k] == st[k]
  {
    if times == 0 then st
    else SweepPass(springs, active, Relax(springs, active, st, times - 1, length), |springs|, length)
  }

  /** The particles after the physics of one frame of length dt. */
  function Step(springs: seq<Spring>, active: seq<bool>, st: seq<PState>, mode: SimMode,
                gusts: seq<real>, dt: real, length: Vec3 -> real): (r: seq<PState>)
    requires IsLengthFn(length) && |springs| == |active|
    requires SpringsFit(springs, |st|) && Massive(st) && |gusts| == |st|
  {
    var forced := ForcePass(springs, active, st, |springs|, length);
    var pushed := ExternalPass(forced, mode, gusts, dt);
    Relax(springs, active, VerletPass(pushed, dt), ConstraintSweeps, length)
  }

  /** A pinned particle ends the frame where it began, at rest, whatever the
      springs, the wind and the constraints do around it; its mass and its
      pin survive the frame too. */
  lemma {:induction false} StepKeepsPinned(springs: seq<Spring>, active: seq<bool>, st: seq<PState>,
                                           mode: SimMode, gusts: seq<real>, dt: real,
                                           length: Vec3 -> real, k: nat)
    requires IsLengthFn(length) && |springs| == |active|
    requires SpringsFit(springs, |st|) && Massive(st) && |gusts| == |st|
    requires k < |st| && st[k].pinned
    ensures var r := Step(springs, active, st, mode, gusts, dt, length);
      |r| == |st| && r[k].position == st[k].position && r[k].prevPosition == st[k].prevPosition
      && r[k].pinned && r[k].mass == st[k].mass
  {
    var forced := ForcePass(springs, active, st, |springs|, length);
    var pushed := ExternalPass(forced, mode, gusts, dt);
    var stepped := VerletPass(pushed, dt);
    assert SameButAcceleration(st[k], forced[k]);
    assert SameButAcceleration(forced[k], pushed[k]);
    assert stepped[k] == pushed[k];
  }

  /** Masses and pins are the same after a frame. */
  lemma StepKeepsMasses(springs: seq<Spring>, active: seq<bool>, st: seq<PState>,
                        mode: SimMode, gusts: seq<real>, dt: real, length: Vec3 -> real)
    requires IsLengthFn(length) && |springs| == |active|
    requires SpringsFit(springs, |st|) && Massive(st) && |gusts| == |st|
    ensures var r := Step(springs, active, st, mode, gusts, dt, length);
      |r| == |st| && forall k :: 0 <= k < |st| ==> r[k].mass == st[k].mass && r[k].pinned == st[k].pinned
  {
    var forced := ForcePass(springs, active, st, |springs|, length);
    var pushed := ExternalPass(forced, mode, gusts, dt);
    var stepped := VerletPass(pushed, dt);
    forall k | 0 <= k < |st|
      ensures stepped[k].mass == st[k].mass && stepped[k].pinned == st[k].pinned
    {
      assert SameButAcceleration(st[k], forced[k]);
      assert SameButAcceleration(forced[k], pushed[k]);
    }
  }

  /** Inactive (torn) springs are skipped: a pass over springs none of which
      is active leaves the particles as they were. */
  lemma {:induction false} ForcePassSkipsTorn(springs: seq<Spring>, active: seq<bool>, st: seq<PState>,
                                              n: nat, length: Vec3 -> real)
    requires IsLengthFn(length) && n <= |springs| == |active|
    requires SpringsFit(springs, |st|) && Massive(st)
    requires forall i :: 0 <= i < n ==> !active[i]
    ensures ForcePass(springs, active, st, n, length) == st
  {
    if n > 0 {
      ForcePassSkipsTorn(springs, active, st, n - 1, length);
    }
  }

  lemma {:induction false} SweepPassSkipsTorn(springs: seq<Spring>, active: seq<bool>, st: seq<PState>,
                                              n: nat, length: Vec3 -> real)
    requires IsLengthFn(length) && n <= |springs| == |active|
    requires SpringsFit(springs, |st|)
    requires forall i :: 0 <= i < n ==> !active[i]
    ensures SweepPass(springs, active, st, n, length) == st
  {
    if n > 0 {
      SweepPassSkipsTorn(springs, active, st, n - 1, length);
    }
  }

  /** A spring that is not active exerts no force, whatever the other springs
      are: any spring may stand in its place and the pass is the same. */
  lemma {:induction false} ForcePassIgnoresInactive(springs: seq<Spring>, active: seq<bool>, st: seq<PState>,
                                                    n: nat, i: nat, s: Spring, length: Vec3 -> real)
    requires IsLengthFn(length) && n <= |springs| == |active|
    requires SpringsFit(springs, |st|) && Massive(st)
    requires i < |springs| && !active[i] && SpringsFit(springs[i := s], |st|)
    ensures ForcePass(springs, active, st, n, length) == ForcePass(springs[i := s], active, st, n, length)
  {
    if n > 0 {
      ForcePassIgnoresInactive(springs, active, st, n - 1, i, s, length);
    }
  }

  /** A spring that is not active constrains nothing, whatever the other
      springs are: any spring may stand in its place and the sweep is the same. */
  lemma {:induction false} SweepPassIgnoresInactive(springs: seq<Spring>, active: seq<bool>, st: seq<PState>,
                                                    n: nat, i: nat, s: Spring, length: Vec3 -> real)
    requires IsLengthFn(length) && n <= |springs| == |active|
    requires SpringsFit(springs, |st|)
    requires i < |springs| && !active[i] && SpringsFit(springs[i := s], |st|)
    ensures SweepPass(springs, active, st, n, length) == SweepPass(springs[i := s], active, st, n, length)
  {
    if n > 0 {
      SweepPassIgnoresInactive(springs, active, st, n - 1, i, s, length);
    }
  }

  /** The sweeps, too, are the same whatever spring stands at an inactive index. */
  lemma {:induction false} RelaxIgnoresInactive(springs: seq<Spring>, active: seq<bool>, st: seq<PState>,
                                                times: nat, i: nat, s: Spring, length: Vec3 -> real)
    requires IsLengthFn(length) && |springs| == |active|
    requires SpringsFit(springs, |st|)
    requires i < |springs| && !active[i] && SpringsFit(springs[i := s], |st|)
    ensures Relax(springs, active, st, times, length) == Relax(springs[i := s], active, st, times, length)
  {
    if times > 0 {
      RelaxIgnoresInactive(springs, active, st, times - 1, i, s, length);
      SweepPassIgnoresInactive(springs, active, Relax(springs, active, st, times - 1, length), |springs|, i, s, length);
    }
  }

  lemma {:induction false} RelaxSkipsTorn(springs: seq<Spring>, active: seq<bool>, st: seq<PState>,
                                          times: nat, length: Vec3 -> real)
    requires IsLengthFn(length) && |springs| == |active|
    requires SpringsFit(springs, |st|)
    requires forall i :: 0 <= i < |springs| ==> !active[i]
    ensures Relax(springs, active, st, times, length) == st
  {
    if times > 0 {
      RelaxSkipsTorn(springs, active, st, times - 1, length);
      SweepPassSkipsTorn(springs, active, st, |springs|, length);
    }
  }

  /** A cloth whose springs are all torn falls freely: each particle just
      takes its external forces and its Verlet step. */
  lemma TornClothFallsFreely(springs: seq<Spring>, active: seq<bool>, st: seq<PState>,
                             mode: SimMode, gusts: seq<real>, dt: real, length: Vec3 -> real)
    requires IsLengthFn(length) && |springs| == |active|
    requires SpringsFit(springs, |st|) && Massive(st) && |gusts| == |st|
    requires forall i :: 0 <= i < |springs| ==> !active[i]
    ensures Step(springs, active, st, mode, gusts, dt, length)
         == VerletPass(ExternalPass(st, mode, gusts, dt), dt)
  {
    ForcePassSkipsTorn(springs, active, st, |springs|, length);
    var pushed := ExternalPass(st, mode, gusts, dt);
    RelaxSkipsTorn(springs, active, VerletPass(pushed, dt), ConstraintSweeps, length);
  }

  /** The sum of m * a over the particles: the total force the accumulated
      accelerations stand for. */
  function ForceSum(st: seq<PState>): Vec3 {
    if |st| == 0 then Zero
    else Add(ForceSum(st[..|st| - 1]), MassTimesAcceleration(st[|st| - 1]))
  }

  function MassTimesAcceleration(p: PState): Vec3 {
    Scale(p.mass, p.acceleration)
  }

  /** Replacing one particle changes the sum by that particle's share. */
  lemma {:induction false} ForceSumUpdate(st: seq<PState>, i: nat, q: PState)
    requires i < |st|
    ensures ForceSum(st[i := q])
         == Add(Sub(ForceSum(st), MassTimesAcceleration(st[i])), MassTimesAcceleration(q))
  {
    var n := |st| - 1;
    if i == n {
      assert st[i := q][..n] == st[..n];
    } else {
      assert st[i := q][..n] == st[..n][i := q];
      ForceSumUpdate(st[..n], i, q);
    }
  }

  lemma ScaleSub(m: real, a: Vec3, b: Vec3)
    ensures Scale(m, Sub(a, b)) == Sub(Scale(m, a), Scale(m, b))
  {
  }

  /** Newton's third law over the whole spring-force loop: however many
      springs act, the forces they add sum to zero, so the total m * a of
      the cloth is what it was before the loop. */
  lemma {:induction false} ForcePassConservesMomentum(springs: seq<Spring>, active: seq<bool>,
                                                      st: seq<PState>, n: nat, length: Vec3 -> real)
    requires IsLengthFn(length) && n <= |springs| == |active|
    requires SpringsFit(springs, |st|) && Massive(st)
    ensures ForceSum(ForcePass(springs, active, st, n, length)) == ForceSum(st)
  {
    if n > 0 {
      ForcePassConservesMomentum(springs, active, st, n - 1, length);
      var prev := ForcePass(springs, active, st, n - 1, length);
      if active[n - 1] {
        var s := springs[n - 1];
        assert SameButAcceleration(st[s.p1], prev[s.p1]) && SameButAcceleration(st[s.p2], prev[s.p2]);
        var e1, e2 := prev[s.p1], prev[s.p2];
        var e := ForcesApplied(s, e1, e2, length);
        ForcesBalance(s, e1, e2, length);
        ScaleSub(e1.mass, e.0.acceleration, e1.acceleration);
        ScaleSub(e2.mass, e.1.acceleration, e2.acceleration);
        ForceSumUpdate(prev, s.p1, e.0);
        assert prev[s.p1 := e.0][s.p2] == e2;
        ForceSumUpdate(prev[s.p1 := e.0], s.p2, e.1);
      }
    }
  }

  /** Gravity accelerates every particle alike, whatever its mass: by 9.81
      along -z in COLLISION mode and along -y otherwise. */
  lemma GravityIgnoresMass(p: PState, mode: SimMode)
    requires p.mass != 0.0
    ensures Gravitated(p, mode).acceleration
         == Add(p.acceleration, if mode == Collision then Vec3(0.0, 0.0, -Gravity)
                                else Vec3(0.0, -Gravity, 0.0))
  {
    QuotientOfMultiple(-Gravity, p.mass);
  }

  lemma QuotientOfMultiple(c: real, m: real)
    requires m != 0.0
    ensures c * m / m == c && 0.0 / m == 0.0
  {
  }

  /** A flag particle at rest feels no drag: only gravity, the gust and the
      lift act on it. */
  lemma StillFlagFeelsNoDrag(p: PState, gust: real, dt: real)
    requires p.mass != 0.0 && p.position == p.prevPosition
    ensures Blown(p, gust, dt) == WithForce(p, Add(Scale(gust, WindDirection), Lift))
  {
    var q := WithForce(p, Add(Scale(gust, WindDirection), Lift));
    var d := Max(dt, MinDragStep);
    assert Div(Sub(q.position, q.prevPosition), d) == Zero;
    assert Scale(-AirDrag, Zero) == Zero;
    NoForce(q);
  }
}
