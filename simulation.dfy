/** The cloth simulation object (src/simulation.cpp): its particles and
    springs, the pinning policy, the mouse's tearing and picking, the event
    keys and the physics of a frame. Rendering, the camera and collision are
    not part of this model; the ray under the cursor, the wind gusts and the
    elapsed time come in as inputs. */
module Cloth {
  import opened Vectors
  import opened Options
  import opened Particles
  import opened Springs
  import opened Grid
  import opened Modes
  import opened Physics
  import opened Interaction
  import opened Layout
  import opened Events

  function StatesOf(ps: seq<Particle>): (r: seq<PState>)
    reads ps
    ensures |r| == |ps|
    ensures forall k :: 0 <= k < |ps| ==> r[k] == ps[k].State()
  {
    seq(|ps|, k requires 0 <= k < |ps| reads ps => ps[k].State())
  }

  /** The constructor's particle loop (src/simulation.cpp:39-44): rows x cols
      new particles of mass 1, row by row, at their homes. */
  method SpawnParticles() returns (ps: seq<Particle>)
    ensures |ps| == Rows * Cols
    ensures forall a, b :: 0 <= a < |ps| && 0 <= b < |ps| && a != b ==> ps[a] != ps[b]
    ensures forall k :: 0 <= k < |ps| ==> fresh(ps[k]) && ps[k].mass == 1.0
    ensures StatesOf(ps) == InitialStates(PinNone)
  {
    ps := [];
    var y := 0;
    while y < Rows
      invariant y <= Rows && |ps| == y * Cols
      invariant forall a, b :: 0 <= a < |ps| && 0 <= b < |ps| && a != b ==> ps[a] != ps[b]
      invariant forall k :: 0 <= k < |ps| ==> fresh(ps[k]) && ps[k].State() == Spawned(Home(k), 1.0)
    {
      var x := 0;
      while x < Cols
        invariant x <= Cols && |ps| == y * Cols + x
        invariant forall a, b :: 0 <= a < |ps| && 0 <= b < |ps| && a != b ==> ps[a] != ps[b]
        invariant forall k :: 0 <= k < |ps| ==> fresh(ps[k]) && ps[k].State() == Spawned(Home(k), 1.0)
      {
        var pos := GridPos(x, y);
        var p := new Particle(pos, 1.0);
        HomeOfCell(x, y);
        ps := ps + [p];
        x := x + 1;
      }
      y := y + 1;
    }
    assert forall k :: 0 <= k < |ps| ==> StatesOf(ps)[k] == InitialStates(PinNone)[k];
  }

  /** The particles and springs of a new cloth (src/simulation.cpp:39-83):
      the springs' rest lengths are taken from the particles' homes, and as
      no two particles share a home, every spring has a positive one. */
  method BuildCloth(length: Vec3 -> real) returns (ps: seq<Particle>, springs: seq<Spring>)
    requires IsLengthFn(length)
    ensures |ps| == Rows * Cols
    ensures forall a, b :: 0 <= a < |ps| && 0 <= b < |ps| && a != b ==> ps[a] != ps[b]
    ensures forall k :: 0 <= k < |ps| ==> fresh(ps[k]) && ps[k].mass == 1.0
    ensures StatesOf(ps) == InitialStates(PinNone)
    ensures springs == GridSprings(Rows, Cols, Homes(), length)
    ensures BuiltOn(springs, Homes(), length)
    ensures SpringsFit(springs, |ps|)
  {
    ps := SpawnParticles();
    var pos := Positions(StatesOf(ps));
    assert pos == Homes();
    springs := BuildSprings(Rows, Cols, pos, length);
    GridSpringsBuilt(Rows, Cols, pos, length);
    HomesDistinct();
    BuiltOnPositive(springs, pos, length);
  }

  class Simulation {
    const particles: seq<Particle>
    /** Each spring names its endpoints by index into `particles`. */
    const springs: seq<Spring>
    const springActive: array<bool>
    const clothIndices: seq<nat>
    const flagIndices: seq<nat>
    const tearRadius: real
    /** glm::length and std::sqrt. */
    const length: Vec3 -> real
    const sqrt: real -> real
    var currentMode: SimMode
    var currentPinning: PinningMode
    var leftMouseDown: bool
    var isCameraActive: bool
    var running: bool
    var fullscreen: bool

    /** The shape the constructor gives the cloth and every operation keeps. */
    ghost predicate Valid() {
      IsLengthFn(length) && IsSqrtFn(sqrt)
      && |particles| == Rows * Cols
      && (forall a, b :: 0 <= a < |particles| && 0 <= b < |particles| && a != b ==> particles[a] != particles[b])
      && (forall k :: 0 <= k < |particles| ==> particles[k].mass == 1.0)
      && springActive.Length == |springs|
      && SpringsFit(springs, |particles|)
      && tearRadius == 0.1
    }

    function States(): (r: seq<PState>)
      reads particles
      ensures |r| == |particles|
    {
      StatesOf(particles)
    }

    function Controls(): ControlState
      reads this
    {
      ControlState(currentMode, currentPinning, leftMouseDown, isCameraActive, running, fullscreen)
    }

    predicate AllActive()
      reads springActive
    {
      forall i :: 0 <= i < springActive.Length ==> springActive[i]
    }

    /** The simulation's state as a value. */
    function World(): Events.World
      reads this, particles, springActive
    {
      Events.World(Controls(), States(), springActive[..])
    }

    /** Every particle has mass 1, so none has mass zero. */
    lemma StatesMassive()
      requires Valid()
      ensures Massive(States()) && Shaped(World())
    {
    }

    /** The constructor (src/simulation.cpp:3-144): the particle grid, its
        springs in GridSprings order with rest lengths taken from the
        particles' homes, the cloth's and the flag's index lists, the
        TOP_ROW pinning, and every spring active. */
    constructor (length: Vec3 -> real, sqrt: real -> real)
      requires IsLengthFn(length) && IsSqrtFn(sqrt)
      ensures Valid()
      ensures States() == InitialStates(PinTopRow)
      ensures springs == GridSprings(Rows, Cols, Homes(), length)
      ensures BuiltOn(springs, Homes(), length)
      ensures AllActive()
      ensures clothIndices == MeshIndices(Rows, Cols) && flagIndices == MeshIndices(Rows, Cols)
      ensures Controls() == ControlState(Tear, PinTopRow, false, false, false, false)
      ensures fresh(springActive)
      ensures forall k :: 0 <= k < |particles| ==> fresh(particles[k])
    {
      var ps, built := BuildCloth(length);
      var cloth := BuildMeshIndices(Rows, Cols);
      var flag := BuildMeshIndices(Rows, Cols);
      particles := ps;
      springs := built;
      clothIndices := cloth;
      flagIndices := flag;
      this.length := length;
      this.sqrt := sqrt;
      tearRadius := 0.1;
      currentMode := Tear;
      currentPinning := PinTopRow;
      leftMouseDown := false;
      isCameraActive := false;
      running := false;
      fullscreen := false;
      springActive := new bool[|built|](_ => true);
      new;
      ApplyPinning();
      RepinnedTwice(InitialStates(PinNone), PinNone, PinTopRow);
      assert Repinned(InitialStates(PinNone), PinTopRow) == InitialStates(PinTopRow) by {
        assert forall k :: 0 <= k < Rows * Cols ==>
          Repinned(InitialStates(PinNone), PinTopRow)[k] == InitialStates(PinTopRow)[k];
      }
    }

    /** applyPinning (src/simulation.cpp:146-175): every pin cleared, then
        the policy's particles pinned. */
    method ApplyPinning()
      requires Valid()
      modifies particles
      ensures States() == Repinned(old(States()), currentPinning)
    {
      ClearPins();
      ghost var cleared := States();
      match currentPinning
      case PinTopRow =>
        PinTopRowParticles();
      case PinCorners =>
        PinCornerParticles();
      case PinFlag =>
        PinFlagColumn();
      case PinAll =>
      case PinNone =>
      RepinnedTwice(old(States()), PinNone, currentPinning);
    }

    /** The loop that clears every pin. */
    method ClearPins()
      requires Valid()
      modifies particles
      ensures States() == Repinned(old(States()), PinNone)
    {
      for k := 0 to |particles|
        invariant forall j :: 0 <= j < |particles| ==>
          particles[j].State() == (if j < k then old(particles[j].State()).(pinned := false)
                                   else old(particles[j].State()))
      {
        particles[k].pinned := false;
      }
      assert forall j :: 0 <= j < |particles| ==> States()[j] == Repinned(old(States()), PinNone)[j];
    }

    /** TOP_ROW: the loop over the first row. */
    method PinTopRowParticles()
      requires Valid() && forall j :: 0 <= j < |particles| ==> !particles[j].pinned
      modifies particles
      ensures States() == Repinned(old(States()), PinTopRow)
    {
      for x := 0 to Cols
        invariant forall j :: 0 <= j < |particles| ==>
          particles[j].State() == old(particles[j].State()).(pinned := j < x)
      {
        particles[x].pinned := true;
      }
      assert forall j :: 0 <= j < |particles| ==> States()[j] == Repinned(old(States()), PinTopRow)[j];
    }

    /** CORNERS: the two ends of the first row. */
    method PinCornerParticles()
      requires Valid() && forall j :: 0 <= j < |particles| ==> !particles[j].pinned
      modifies particles
      ensures States() == Repinned(old(States()), PinCorners)
    {
      particles[0].pinned := true;
      particles[Cols - 1].pinned := true;
      assert forall j :: 0 <= j < |particles| ==> States()[j] == Repinned(old(States()), PinCorners)[j];
    }

    /** FLAG: the loop down the first column, particle y * cols + 0 of each
        row. */
    method PinFlagColumn()
      requires Valid() && forall j :: 0 <= j < |particles| ==> !particles[j].pinned
      modifies particles
      ensures States() == Repinned(old(States()), PinFlag)
    {
      for y := 0 to Rows
        invariant forall j :: 0 <= j < |particles| ==>
          particles[j].State() == old(particles[j].State()).(pinned := j % Cols == 0 && j < y * Cols)
      {
        particles[y * Cols + 0].pinned := true;
      }
      assert forall j :: 0 <= j < |particles| ==> States()[j] == Repinned(old(States()), PinFlag)[j];
    }

    /** reset (src/simulation.cpp:248-263): every particle back home and at
        rest, TOP_ROW pinning, every spring active again. */
    method Reset()
      requires Valid()
      modifies particles, this`currentPinning, springActive
      ensures States() == InitialStates(PinTopRow)
      ensures currentPinning == PinTopRow
      ensures AllActive()
    {
      ReturnHome();
      currentPinning := PinTopRow;
      ApplyPinning();
      HomedIsInitial(old(States()), PinTopRow);
      ActivateAll();
    }

    /** reset's loop over the grid: each particle back to its home, at rest. */
    method ReturnHome()
      requires Valid()
      modifies particles
      ensures States() == Homed(old(States()))
    {
      for y := 0 to Rows
        invariant forall j :: 0 <= j < |particles| ==>
          particles[j].State() == (if j < y * Cols then Restarted(old(particles[j].State()), j)
                                   else old(particles[j].State()))
      {
        for x := 0 to Cols
          invariant forall j :: 0 <= j < |particles| ==>
            particles[j].State() == (if j < y * Cols + x then Restarted(old(particles[j].State()), j)
                                     else old(particles[j].State()))
        {
          var idx := y * Cols + x;
          var originalPos := GridPos(x, y);
          HomeOfCell(x, y);
          particles[idx].position := originalPos;
          particles[idx].prevPosition := originalPos;
          particles[idx].acceleration := Zero;
        }
      }
      assert forall j :: 0 <= j < |particles| ==> States()[j] == Homed(old(States()))[j];
    }

    /** std::fill(springActive, true). */
    method ActivateAll()
      modifies springActive
      ensures AllActive()
    {
      for i := 0 to springActive.Length
        invariant forall j :: 0 <= j < i ==> springActive[j]
      {
        springActive[i] := true;
      }
    }

    /** tearSpringsAroundPoint (src/simulation.cpp:547-584): every active
        spring the tear at worldPos cuts is deactivated; nothing else
        changes. */
    method TearSpringsAroundPoint(worldPos: Vec3, radius: real)
      requires Valid()
      modifies springActive
      ensures springActive[..] == TearMask(old(springActive[..]), springs, Positions(States()), worldPos, radius, length)
    {
      ghost var pos := Positions(States());
      ghost var mask := TearMask(old(springActive[..]), springs, pos, worldPos, radius, length);
      for i := 0 to |springs|
        invariant forall j :: 0 <= j < springActive.Length ==>
          springActive[j] == if j < i then mask[j] else old(springActive[j])
      {
        if !springActive[i] {
          continue;
        }
        var p1 := particles[springs[i].p1].position;
        var p2 := particles[springs[i].p2].position;
        var dist1 := length(Sub(worldPos, p1));
        var dist2 := length(Sub(worldPos, p2));
        if dist1 < radius || dist2 < radius {
          springActive[i] := false;
          continue;
        }
        var springVec := Sub(p2, p1);
        var springLength := length(springVec);
        if springLength > 0.0 {
          var springDir := Div(springVec, springLength);
          var toTearPoint := Sub(worldPos, p1);
          var t := Clamp(Dot(toTearPoint, springDir), 0.0, springLength);
          var closestPoint := Add(p1, Scale(t, springDir));
          var distanceToTear := length(Sub(worldPos, closestPoint));
          if distanceToTear < radius {
            springActive[i] := false;
          }
        }
      }
      assert springActive[..] == mask;
    }

    /** findClosestParticleToRay (src/simulation.cpp:586-614): the index of
        the first particle nearest to the ray, if the square root of its
        squared distance is below twice the tear radius. */
    method FindClosestParticleToRay(rayOrigin: Vec3, rayDir: Vec3) returns (closest: Option<nat>)
      requires IsSqrtFn(sqrt)
      ensures closest == Picked(RayDistances(Positions(States()), rayOrigin, rayDir), tearRadius * 2.0, sqrt)
    {
      ghost var ds := RayDistances(Positions(States()), rayOrigin, rayDir);
      var minDistSq := FloatMax;
      closest := None;
      if |particles| == 0 {
        return;
      }
      for k := 0 to |particles|
        invariant (closest, minDistSq) == Scan(ds, k)
      {
        var p := particles[k];
        var vecToParticle := Sub(p.position, rayOrigin);
        var closestPointOnRay := Add(rayOrigin, Scale(Dot(vecToParticle, rayDir), rayDir));
        var vec := Sub(p.position, closestPointOnRay);
        var distSq := Dot(vec, vec);
        assert distSq == ds[k];
        if distSq < minDistSq {
          minDistSq := distSq;
          closest := Some(k);
        }
      }
      if closest.Some? && sqrt(minDistSq) < tearRadius * 2.0 {
        return;
      }
      closest := None;
    }

    /** handleMouseTearing (src/simulation.cpp:533-545): while the left
        button is down, tear around the particle the ray picks. */
    method HandleMouseTearing(nearPoint: Vec3, rayDir: Vec3)
      requires Valid()
      modifies springActive
      ensures springActive[..] == if leftMouseDown
        then TornByMouse(old(springActive[..]), springs, Positions(States()), nearPoint, rayDir, tearRadius, length, sqrt)
        else old(springActive[..])
    {
      if leftMouseDown {
        var target := FindClosestParticleToRay(nearPoint, rayDir);
        if target.Some? {
          TearSpringsAroundPoint(particles[target.value].position, tearRadius);
        }
      }
    }

    /** handleMouseActivity (src/simulation.cpp:527-531): only TEAR mode
        tears. */
    method HandleMouseActivity(nearPoint: Vec3, rayDir: Vec3)
      requires Valid()
      modifies springActive
      ensures World() == MouseHandled(old(World()), springs, nearPoint, rayDir, tearRadius, length, sqrt)
    {
      if currentMode == Tear {
        HandleMouseTearing(nearPoint, rayDir);
      }
    }

    /** The spring-force loop of run (src/simulation.cpp:196-200). */
    method ApplySpringForces()
      requires Valid()
      modifies particles
      ensures States() == ForcePass(springs, springActive[..], old(States()), |springs|, length)
    {
      StatesMassive();
      for i := 0 to |springs|
        invariant States() == ForcePass(springs, springActive[..], old(States()), i, length)
      {
        if springActive[i] {
          ApplySpringForce(springs[i]);
        }
      }
    }

    /** One spring's applyForces on its two particles. */
    method ApplySpringForce(s: Spring)
      requires Valid() && s.p1 < |particles| && s.p2 < |particles| && s.p1 != s.p2 && s.restLength != 0.0
      modifies particles
      ensures Massive(old(States())) && States() == SpringForced(s, old(States()), length)
    {
      StatesMassive();
      ApplyForces(s, particles[s.p1], particles[s.p2], length);
      assert forall k :: 0 <= k < |particles| ==> States()[k] == SpringForced(s, old(States()), length)[k];
    }

    /** The external-force loop of run (src/simulation.cpp:202-229): gravity,
        and in FLAG mode the wind, the lift and the drag; particle k meets
        gust k. */
    method ApplyExternalForces(dt: real, gusts: seq<real>)
      requires Valid() && |gusts| == |particles|
      modifies particles
      ensures Massive(old(States())) && States() == ExternalPass(old(States()), currentMode, gusts, dt)
    {
      StatesMassive();
      for k := 0 to |particles|
        invariant forall j :: 0 <= j < |particles| ==>
          particles[j].State() == if j < k then ExternalForces(old(particles[j].State()), currentMode, gusts[j], dt)
                                  else old(particles[j].State())
      {
        var p := particles[k];
        if currentMode == Collision {
          p.AddForce(Vec3(0.0, 0.0, -Gravity * p.mass));
        } else {
          p.AddForce(Vec3(0.0, -Gravity * p.mass, 0.0));
        }
        if currentMode == Flag {
          p.AddForce(Add(Scale(gusts[k], WindDirection), Lift));
          var v := Div(Sub(p.position, p.prevPosition), Max(dt, MinDragStep));
          p.AddForce(Scale(-AirDrag, v));
        }
      }
      assert forall j :: 0 <= j < |particles| ==>
        States()[j] == ExternalPass(old(States()), currentMode, gusts, dt)[j];
    }

    /** The Verlet loop of run (src/simulation.cpp:231-233). */
    method UpdateParticles(dt: real)
      requires Valid()
      modifies particles
      ensures States() == VerletPass(old(States()), dt)
    {
      for k := 0 to |particles|
        invariant forall j :: 0 <= j < |particles| ==>
          particles[j].State() == if j < k then Stepped(old(particles[j].State()), dt) else old(particles[j].State())
      {
        particles[k].UpdateVerlet(dt);
      }
      assert forall j :: 0 <= j < |particles| ==> States()[j] == VerletPass(old(States()), dt)[j];
    }

    /** The five constraint sweeps of run (src/simulation.cpp:235-241). */
    method SatisfyConstraints()
      requires Valid()
      modifies particles
      ensures States() == Relax(springs, springActive[..], old(States()), ConstraintSweeps, length)
    {
      for t := 0 to ConstraintSweeps
        invariant States() == Relax(springs, springActive[..], old(States()), t, length)
      {
        Sweep();
      }
    }

    /** One sweep: satisfyConstraint on every active spring, in order. */
    method Sweep()
      requires Valid()
      modifies particles
      ensures States() == SweepPass(springs, springActive[..], old(States()), |springs|, length)
    {
      for j := 0 to |springs|
        invariant States() == SweepPass(springs, springActive[..], old(States()), j, length)
      {
        if springActive[j] {
          ConstrainSpring(springs[j]);
        }
      }
    }

    /** One spring's satisfyConstraint on its two particles. */
    method ConstrainSpring(s: Spring)
      requires Valid() && s.p1 < |particles| && s.p2 < |particles| && s.p1 != s.p2
      modifies particles
      ensures States() == SpringConstrained(s, old(States()), length)
    {
      SatisfyConstraint(s, particles[s.p1], particles[s.p2], length);
      assert forall k :: 0 <= k < |particles| ==> States()[k] == SpringConstrained(s, old(States()), length)[k];
    }

    /** The physics of one frame of run (src/simulation.cpp:196-241). */
    method StepPhysics(dt: real, gusts: seq<real>)
      requires Valid() && |gusts| == |particles|
      modifies particles
      ensures Massive(old(States()))
      ensures States() == Step(springs, springActive[..], old(States()), currentMode, gusts, dt, length)
    {
      StatesMassive();
      ApplySpringForces();
      ApplyExternalForces(dt, gusts);
      UpdateParticles(dt);
      SatisfyConstraints();
    }

    /** One event of processEvent (src/simulation.cpp:637-706). */
    method ProcessEvent(e: Event)
      requires Valid()
      modifies this, particles, springActive
      ensures Controls() == AfterEvent(old(Controls()), e)
      ensures States() == StatesAfterEvent(old(States()), old(Controls()), e)
      ensures springActive[..] == ActiveAfterEvent(old(springActive[..]), e)
    {
      match e
      case KeyEscape =>
        running := false;
      case KeyF =>
        fullscreen := !fullscreen;
      case KeyR =>
        Reset();
        assert springActive[..] == ActiveAfterEvent(old(springActive[..]), e);
      case KeyE =>
        currentMode := NextMode(currentMode);
        Reset();
        assert springActive[..] == ActiveAfterEvent(old(springActive[..]), e);
      case KeyP =>
        currentPinning := NextPinning(currentPinning);
        ApplyPinning();
      case KeySpace =>
        isCameraActive := !isCameraActive;
        if isCameraActive {
          leftMouseDown := false;
        }
      case LeftButtonDown =>
        leftMouseDown := true;
      case LeftButtonUp =>
        leftMouseDown := false;
      case Quit =>
        running := false;
      case Other =>
    }

    /** processEvent's polling loop: the queued events, in order. */
    method ProcessEvents(events: seq<Event>)
      requires Valid()
      modifies this, particles, springActive
      ensures World() == HandledAll(old(World()), events)
    {
      for i := 0 to |events|
        invariant World() == HandledAll(old(World()), events[..i])
      {
        ProcessEvent(events[i]);
        assert events[..i + 1][..i] == events[..i];
      }
      assert events[..|events|] == events;
    }

    /** One pass of run's loop (src/simulation.cpp:177-241), with the elapsed
        time, the queued events, the ray under the cursor and the wind gusts
        given: the step is clamped to 1/60 s, the events are handled, FLAG
        mode forces FLAG pinning, the mouse tears, and the physics runs. */
    method RunFrame(elapsed: real, events: seq<Event>, nearPoint: Vec3, rayDir: Vec3, gusts: seq<real>)
      requires Valid() && |gusts| == |particles|
      modifies this, particles, springActive
      ensures Shaped(old(World()))
      ensures World() == Frame(old(World()), events, elapsed, nearPoint, rayDir, gusts, springs,
                               tearRadius, length, sqrt)
    {
      StatesMassive();
      var dt := Min(elapsed, MaxStep);
      ProcessEvents(events);
      ForceFlagPinning();
      HandleMouseActivity(nearPoint, rayDir);
      ghost var torn := World();
      StepPhysics(dt, gusts);
      assert World() == torn.(states := States());
    }

    /** FLAG mode pins the flag's pole (src/simulation.cpp:187-192). */
    method ForceFlagPinning()
      requires Valid()
      modifies this`currentPinning, particles
      ensures World() == FlagForced(old(World()))
    {
      if currentMode == Flag {
        if currentPinning != PinFlag {
          currentPinning := PinFlag;
          ApplyPinning();
        }
      }
    }
  }
}
