/** What one pass of Simulation::run does to the cloth (src/simulation.cpp:177-241
    and 527-708), stated on values: the events of processEvent, the FLAG
    mode's pinning, the mouse's tearing and the physics step. */
module Events {
  import opened Vectors
  import opened Options
  import opened Particles
  import opened Springs
  import opened Grid
  import opened Modes
  import opened Physics
  import opened Interaction
  import opened Layout

  /** The keyboard and mouse state an event can change. */
  datatype ControlState = ControlState(mode: SimMode, pinning: PinningMode, leftMouseDown: bool,
                                       cameraActive: bool, running: bool, fullscreen: bool)

  /** The events processEvent reacts to; mouse motion, resizing and every
      other event change nothing this model keeps. */
  datatype Event = KeyEscape | KeyF | KeyR | KeyE | KeyP | KeySpace
                 | LeftButtonDown | LeftButtonUp | Quit | Other

  /** The controls after one event. R and E reset the cloth, which brings
      back the TOP_ROW pinning. */
  function AfterEvent(c: ControlState, e: Event): ControlState {
    match e
    case KeyEscape => c.(running := false)
    case KeyF => c.(fullscreen := !c.fullscreen)
    case KeyR => c.(pinning := PinTopRow)
    case KeyE => c.(mode := NextMode(c.mode), pinning := PinTopRow)
    case KeyP => c.(pinning := NextPinning(c.pinning))
    case KeySpace =>
      var camera := !c.cameraActive;
      c.(cameraActive := camera, leftMouseDown := if camera then false else c.leftMouseDown)
    case LeftButtonDown => c.(leftMouseDown := true)
    case LeftButtonUp => c.(leftMouseDown := false)
    case Quit => c.(running := false)
    case Other => c
  }

  /** The particles after one event under controls c: R and E rebuild the
      cloth at rest under TOP_ROW, P re-pins it under the next policy. */
  function StatesAfterEvent(st: seq<PState>, c: ControlState, e: Event): seq<PState> {
    match e
    case KeyR => InitialStates(PinTopRow)
    case KeyE => InitialStates(PinTopRow)
    case KeyP => Repinned(st, NextPinning(c.pinning))
    case _ => st
  }

  /** The springs' active flags after one event: R and E mend every spring. */
  function ActiveAfterEvent(active: seq<bool>, e: Event): (r: seq<bool>)
    ensures |r| == |active|
  {
    if e == KeyR || e == KeyE then seq(|active|, _ => true) else active
  }

  /** Everything a frame reads and changes: the controls, the particles and
      the springs' active flags. */
  datatype World = World(controls: ControlState, states: seq<PState>, active: seq<bool>)

  /** A cloth of rows x cols particles, each of mass 1. */
  predicate Shaped(w: World) {
    |w.states| == Rows * Cols && forall k :: 0 <= k < |w.states| ==> w.states[k].mass == 1.0
  }

  /** The particles are pinned exactly as the current policy says. */
  predicate PinsAgree(w: World) {
    forall k :: 0 <= k < |w.states| ==> w.states[k].pinned == PinnedBy(w.controls.pinning, k)
  }

  function Handled(w: World, e: Event): (r: World)
    ensures Shaped(w) ==> Shaped(r)
    ensures |r.active| == |w.active|
  {
    World(AfterEvent(w.controls, e), StatesAfterEvent(w.states, w.controls, e), ActiveAfterEvent(w.active, e))
  }

  /** The world after processEvent has handled the queued events in order. */
  function HandledAll(w: World, events: seq<Event>): (r: World)
    ensures Shaped(w) ==> Shaped(r)
    ensures |r.active| == |w.active|
  {
    if |events| == 0 then w
    else Handled(HandledAll(w, events[..|events| - 1]), events[|events| - 1])
  }

  /** In FLAG mode the pinning is forced to FLAG, and the particles are
      re-pinned only when it was something else. */
  function FlagForced(w: World): (r: World)
    ensures Shaped(w) ==> Shaped(r)
    ensures |r.active| == |w.active|
  {
    if w.controls.mode == Flag && w.controls.pinning != PinFlag then
      World(w.controls.(pinning := PinFlag), Repinned(w.states, PinFlag), w.active)
    else w
  }

  /** handleMouseTearing while the left button is down: pick the particle
      nearest to the ray within twice the tear radius, and tear around its
      position with the tear radius. */
  function TornByMouse(active: seq<bool>, springs: seq<Spring>, pos: seq<Vec3>, nearPoint: Vec3,
                       rayDir: Vec3, radius: real, length: Vec3 -> real, sqrt: real -> real): (r: seq<bool>)
    requires IsSqrtFn(sqrt) && |active| == |springs| && SpringsWithin(springs, |pos|)
    ensures |r| == |active|
  {
    match Picked(RayDistances(pos, nearPoint, rayDir), radius * 2.0, sqrt)
    case None => active
    case Some(k) => TearMask(active, springs, pos, pos[k], radius, length)
  }

  /** handleMouseActivity: the mouse tears only in TEAR mode. */
  function MouseHandled(w: World, springs: seq<Spring>, nearPoint: Vec3, rayDir: Vec3, radius: real,
                        length: Vec3 -> real, sqrt: real -> real): (r: World)
    requires IsSqrtFn(sqrt) && |w.active| == |springs| && SpringsWithin(springs, |w.states|)
    ensures r.controls == w.controls && r.states == w.states && |r.active| == |w.active|
  {
    if w.controls.mode == Tear && w.controls.leftMouseDown then
      w.(active := TornByMouse(w.active, springs, Positions(w.states), nearPoint, rayDir, radius, length, sqrt))
    else w
  }

  /** One pass of the main loop after `elapsed` seconds: the events, the
      FLAG pinning, the mouse, then the physics with the step clamped to
      1/60 s. */
  function Frame(w: World, events: seq<Event>, elapsed: real, nearPoint: Vec3, rayDir: Vec3,
                 gusts: seq<real>, springs: seq<Spring>, radius: real,
                 length: Vec3 -> real, sqrt: real -> real): (r: World)
    requires IsLengthFn(length) && IsSqrtFn(sqrt) && Shaped(w)
    requires |w.active| == |springs| && SpringsFit(springs, Rows * Cols) && |gusts| == Rows * Cols
    ensures Shaped(r) && |r.active| == |w.active|
  {
    var ready := FlagForced(HandledAll(w, events));
    var torn := MouseHandled(ready, springs, nearPoint, rayDir, radius, length, sqrt);
    assert Massive(torn.states);
    var r := torn.(states := Step(springs, torn.active, torn.states, torn.controls.mode, gusts,
                                  Min(elapsed, MaxStep), length));
    StepKeepsMasses(springs, torn.active, torn.states, torn.controls.mode, gusts, Min(elapsed, MaxStep), length);
    r
  }

  /** Key E is the only event that changes the mode, and it moves to the
      next one; R and E bring back TOP_ROW pinning and P moves to the next
      policy. */
  lemma EventModes(c: ControlState, e: Event)
    ensures AfterEvent(c, e).mode == if e == KeyE then NextMode(c.mode) else c.mode
    ensures AfterEvent(c, e).pinning
         == if e == KeyR || e == KeyE then PinTopRow
            else if e == KeyP then NextPinning(c.pinning)
            else c.pinning
  {
  }

  /** Escape and quit stop the loop; nothing restarts it. */
  lemma EventRunning(c: ControlState, e: Event)
    ensures AfterEvent(c, e).running == (c.running && e != KeyEscape && e != Quit)
  {
  }

  /** Space toggles the camera, and turning the camera on lets go of the
      mouse. */
  lemma SpaceReleasesMouse(c: ControlState)
    ensures AfterEvent(c, KeySpace).cameraActive == !c.cameraActive
    ensures AfterEvent(c, KeySpace).cameraActive ==> !AfterEvent(c, KeySpace).leftMouseDown
  {
  }

  /** A click presses the button whatever the camera does, so in TEAR mode
      the mouse tears even while the camera is on. */
  lemma ClickTearsWithCameraOn(w: World, springs: seq<Spring>, nearPoint: Vec3, rayDir: Vec3, radius: real,
                               length: Vec3 -> real, sqrt: real -> real)
    requires IsSqrtFn(sqrt) && |w.active| == |springs| && SpringsWithin(springs, |w.states|)
    requires w.controls.mode == Tear
    ensures var c := AfterEvent(w.controls, LeftButtonDown);
      c.cameraActive == w.controls.cameraActive
      && MouseHandled(w.(controls := c), springs, nearPoint, rayDir, radius, length, sqrt).active
         == TornByMouse(w.active, springs, Positions(w.states), nearPoint, rayDir, radius, length, sqrt)
  {
  }

  /** Every event keeps the pins in step with the pinning policy. */
  lemma HandledPinsAgree(w: World, e: Event)
    requires Shaped(w) && PinsAgree(w)
    ensures PinsAgree(Handled(w, e))
  {
  }

  lemma {:induction false} HandledAllPinsAgree(w: World, events: seq<Event>)
    requires Shaped(w) && PinsAgree(w)
    ensures PinsAgree(HandledAll(w, events))
  {
    if |events| > 0 {
      HandledAllPinsAgree(w, events[..|events| - 1]);
      HandledPinsAgree(HandledAll(w, events[..|events| - 1]), events[|events| - 1]);
    }
  }

  /** Through a whole frame the pins follow the pinning policy, and in FLAG
      mode that policy is FLAG. */
  lemma FramePinsAgree(w: World, events: seq<Event>, elapsed: real, nearPoint: Vec3, rayDir: Vec3,
                       gusts: seq<real>, springs: seq<Spring>, radius: real,
                       length: Vec3 -> real, sqrt: real -> real)
    requires IsLengthFn(length) && IsSqrtFn(sqrt) && Shaped(w) && PinsAgree(w)
    requires |w.active| == |springs| && SpringsFit(springs, Rows * Cols) && |gusts| == Rows * Cols
    ensures var r := Frame(w, events, elapsed, nearPoint, rayDir, gusts, springs, radius, length, sqrt);
      PinsAgree(r) && (r.controls.mode == Flag ==> r.controls.pinning == PinFlag)
  {
    HandledAllPinsAgree(w, events);
    var ready := FlagForced(HandledAll(w, events));
    var torn := MouseHandled(ready, springs, nearPoint, rayDir, radius, length, sqrt);
    StepKeepsMasses(springs, torn.active, torn.states, torn.controls.mode, gusts, Min(elapsed, MaxStep), length);
  }

  /** The flag's pole holds: in FLAG mode, every particle of the left column
      ends the frame exactly where the events left it. */
  lemma FlagPoleStaysPut(w: World, events: seq<Event>, elapsed: real, nearPoint: Vec3, rayDir: Vec3,
                         gusts: seq<real>, springs: seq<Spring>, radius: real,
                         length: Vec3 -> real, sqrt: real -> real, k: nat)
    requires IsLengthFn(length) && IsSqrtFn(sqrt) && Shaped(w) && PinsAgree(w)
    requires |w.active| == |springs| && SpringsFit(springs, Rows * Cols) && |gusts| == Rows * Cols
    requires HandledAll(w, events).controls.mode == Flag && k < Rows * Cols && k % Cols == 0
    ensures Frame(w, events, elapsed, nearPoint, rayDir, gusts, springs, radius, length, sqrt).states[k].position
         == HandledAll(w, events).states[k].position
  {
    HandledAllPinsAgree(w, events);
    var ready := FlagForced(HandledAll(w, events));
    assert ready.states[k].pinned && ready.states[k].position == HandledAll(w, events).states[k].position;
    var torn := MouseHandled(ready, springs, nearPoint, rayDir, radius, length, sqrt);
    StepKeepsPinned(springs, torn.active, torn.states, torn.controls.mode, gusts, Min(elapsed, MaxStep), length, k);
  }

  /** Without R or E a torn spring stays torn: events never mend a spring
      otherwise, and the mouse only ever cuts. */
  lemma {:induction false} TornStaysTorn(w: World, events: seq<Event>, i: nat)
    requires i < |w.active| && !w.active[i]
    requires forall j :: 0 <= j < |events| ==> events[j] != KeyR && events[j] != KeyE
    ensures !HandledAll(w, events).active[i]
  {
    if |events| > 0 {
      TornStaysTorn(w, events[..|events| - 1], i);
    }
  }

  lemma FrameKeepsTorn(w: World, events: seq<Event>, elapsed: real, nearPoint: Vec3, rayDir: Vec3,
                       gusts: seq<real>, springs: seq<Spring>, radius: real,
                       length: Vec3 -> real, sqrt: real -> real, i: nat)
    requires IsLengthFn(length) && IsSqrtFn(sqrt) && Shaped(w)
    requires |w.active| == |springs| && SpringsFit(springs, Rows * Cols) && |gusts| == Rows * Cols
    requires i < |w.active| && !w.active[i]
    requires forall j :: 0 <= j < |events| ==> events[j] != KeyR && events[j] != KeyE
    ensures !Frame(w, events, elapsed, nearPoint, rayDir, gusts, springs, radius, length, sqrt).active[i]
  {
    TornStaysTorn(w, events, i);
    var ready := FlagForced(HandledAll(w, events));
    var pos := Positions(ready.states);
    var pick := Picked(RayDistances(pos, nearPoint, rayDir), radius * 2.0, sqrt);
    if pick.Some? {
      TearOnlyCuts(ready.active, springs, pos, pos[pick.value], radius, length, i);
    }
  }
}
