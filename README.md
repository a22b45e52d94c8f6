# Cloth simulation core in Dafny

This project models the physics core of a mass-spring cloth simulator.

- **The cloth.** It is a 30 x 40 grid of particles, 0.18 apart, joined by structural, shear and bend springs.
- **The particles.** Each one is integrated with position Verlet, and any of them can be pinned.
- **The springs.**
  - They pull with a force that stiffens beyond 110% stretch.
  - They are damped by the endpoints' relative velocity.
  - After each step, five relaxation sweeps pull each over-stretched spring back to 120% of its rest length, one spring at a time. A later correction can stretch a neighbour again, and a spring whose two ends are pinned is never corrected.
- **The modes.** The simulation runs in one of three modes: TEAR, COLLISION and FLAG.
  - In TEAR mode, the mouse tears springs around the particle nearest to the ray under the cursor.
  - In COLLISION mode, gravity acts along -z.
  - In FLAG mode, the left column is pinned as a pole, and a gusting wind with lift and air drag blows the cloth.
- **The keys.**
  - R resets the cloth.
  - E cycles the mode and resets.
  - P cycles the pinning policy: TOP_ROW, ALL, CORNERS, FLAG, NONE.
  - Space toggles the camera.
  - Escape and quit stop the loop.

The stateful parts keep the source's form:
- **`Particles.Particle`** is a class whose methods update its fields.
- **`Cloth.Simulation`** is a class that holds:
  - the particle objects;
  - the springs, which name their endpoints by particle index;
  - the `springActive` array;
  - the mesh index lists;
  - the control flags.

Every method is proved against a specification function on values:

| Module | Specifies |
|---|---|
| `Particles` | one particle |
| `Springs` | one spring acting on its two endpoints |
| `Grid` | the grid, its springs and the mesh index list |
| `Layout` | the start positions, reset and pinning |
| `Physics` | the passes of one frame |
| `Interaction` | tearing and picking |
| `Events` | the events and one whole frame |

`Cloth.Simulation.RunFrame` is one pass of the main loop. It is proved equal to `Events.Frame` of the previous state. The lemmas in `Events` then state what a frame guarantees:
- the pins always follow the pinning policy;
- FLAG mode pins the left column, and that column does not move;
- a torn spring stays torn until R or E.

Numbers are Dafny reals. `glm::length` and `std::sqrt` are parameters that are only assumed to return the non-negative square root:
- `Vectors.IsLengthFn` states this for `glm::length`;
- `Vectors.IsSqrtFn` states it for `std::sqrt`.

Behaviour of the code worth noting (the model follows the code):
- **PINNINGMODE::ALL pins nothing.** `applyPinning` has no case for it, so after clearing every pin it leaves the cloth free, like NONE. See `Modes.PinnedBy` and `Modes.PinnedByGrid`.
- **P and FLAG mode do not reset the cloth.**
  - Key P re-pins the cloth without resetting it.
  - FLAG mode forces FLAG pinning with `applyPinning` alone, and only when the pinning is something else.
  - Only R and E reset the cloth (`Events.StatesAfterEvent`, `Events.FlagForced`).
- **A 2 x 2 grid has six springs:** four structural and two shear (`Grid.PatchSpringCount`). The full cloth has 6852 (`Grid.ClothSpringCount`).
- **A free particle starting from rest moves by a * dt^2 in its first step,** not by half that (`Particles.FirstStepFromRest`).
- **A click while the camera is on still tears in TEAR mode.** Space releases the button when it turns the camera on, but a later left click sets it again without looking at the camera, and `handleMouseTearing` tests only the button (`Events.ClickTearsWithCameraOn`).
- **A pick is kept only when the square root of the smallest squared distance is strictly below twice the tear radius.** At exactly that distance there is no target (`Interaction.PickedIsFirstNearestInReach`).

## Model

| member | source | states |
|---|---|---|
| Particles.Spawned | src/particle.cpp:3-10 | a new particle is at rest at its start point (previous position equal to position), with zero acceleration, the given mass and no pin |
| Particles.Particle.constructor | src/particle.cpp:3-10 | the constructed particle's state is `Spawned(startPos, m)` |
| Particles.WithForce | src/particle.cpp:12-14 | adding a force changes only the acceleration |
| Particles.ForceLaw | src/particle.cpp:12-14 | mass times the change of acceleration is exactly the force added |
| Particles.ForcesAdd | src/particle.cpp:12-14 | adding f and then g equals adding f + g once, so forces accumulate |
| Particles.Particle.AddForce | src/particle.cpp:12-14 | the new state is `WithForce(old state, force)`: acceleration += force / mass, nothing else changes |
| Particles.Stepped | src/particle.cpp:16-22 | a pinned particle is unchanged; a free one keeps its old position as the previous one and loses its acceleration; mass and pin are kept |
| Particles.VerletVelocity | src/particle.cpp:18-21 | after a free step the displacement is the old displacement plus a * dt^2 |
| Particles.FirstStepFromRest | src/particle.cpp:18-21 | a free particle at rest moves by exactly a * dt^2 |
| Particles.RestIsEquilibrium | src/particle.cpp:16-22 | a particle at rest with no acceleration stays where it is |
| Particles.Particle.UpdateVerlet | src/particle.cpp:16-22 | the new state is `Stepped(old state, dt)` |
| Particles.PinnedTo | src/particle.cpp:24-28 | after pinTo the particle is pinned, at `pos`, at rest there; acceleration and mass are kept |
| Particles.PinnedStaysPut | src/particle.cpp:16-28 | a particle pinned to `pos` is still at `pos` after any force and a Verlet step |
| Particles.Particle.PinTo | src/particle.cpp:24-28 | the new state is `PinnedTo(old state, pos)` |
| Springs.NewSpring | src/springs.cpp:3-10 | the spring joins the given particles with the given stiffness and damping; its rest length is their distance, never negative, and zero exactly when they coincide |
| Springs.Stiffening | src/springs.cpp:21-28 | the force multiplier is at least 1, exactly 1 up to a stretch ratio of 1.1, and above 1.1 larger than the ratio (the cube) |
| Springs.TotalForce | src/springs.cpp:13-40 | definition of the force on the first endpoint: the stiffened Hooke force plus damping along the spring; its promises are stated by `Springs.ForcesBalance`, `Springs.RestingSpringIsIdle` and `Springs.NewSpringIsIdle` |
| Springs.ForcesApplied | src/springs.cpp:12-44 | applyForces changes only the two accelerations, and nothing at all when the endpoints coincide |
| Springs.ForcesBalance | src/springs.cpp:40-43 | the endpoints receive equal and opposite forces: m1 * da1 + m2 * da2 = 0 |
| Springs.RestingSpringIsIdle | src/springs.cpp:12-44 | a spring at its rest length whose endpoints move alike changes nothing |
| Springs.NewSpringIsIdle | src/springs.cpp:3-44 | a new spring between two particles at rest exerts no force on them |
| Springs.ApplyForces | src/springs.cpp:12-44 | the two particles' new states are `ForcesApplied` of their old states |
| Springs.Constrained | src/springs.cpp:46-70 | satisfyConstraint changes only positions, never moves a pinned endpoint, and changes nothing while the length is at most 1.2 * rest |
| Springs.ConstraintKeepsMidpoint | src/springs.cpp:59-62 | with both ends free the midpoint of the spring stays put |
| Springs.ConstraintKeepsDirection | src/springs.cpp:53-68 | an over-stretched spring with a free end keeps its direction, its separation scaled by 1.2 * rest / length |
| Springs.ConstraintRestoresMaxLength | src/springs.cpp:53-68 | after the correction the separation is exactly 1.2 * rest |
| Springs.SatisfyConstraint | src/springs.cpp:46-70 | the two particles' new states are `Constrained` of their old states |
| Grid.GridPosInjective | src/simulation.cpp:39-44 | distinct grid cells start at distinct points |
| Grid.Rule | src/simulation.cpp:57-81 | definition of the six neighbour rules, each with its bounds test; its promises are stated by `Grid.CellSpringsCount` and `Grid.GridSpringsBuilt`, and `Grid.MakeRuleSpring` is proved equal to it |
| Grid.MakeRuleSpring | src/simulation.cpp:57-81 | the spring that one rule adds at a cell, or none where the neighbour is off the grid |
| Grid.MakeCellSprings | src/simulation.cpp:59-81 | the springs of one cell, in rule order: right, down, down-right, down-left, two right, two down |
| Grid.BuildRowSprings | src/simulation.cpp:56-82 | the springs of one row, cell by cell |
| Grid.BuildSprings | src/simulation.cpp:55-83 | the spring loop yields `GridSprings`, row by row |
| Grid.GridSprings | src/simulation.cpp:55-83 | definition of every spring of the grid, cell by cell, row by row; its promises are stated by `Grid.GridSpringsBuilt`, `Grid.BuiltOnPositive` and `Grid.GridSpringCount` |
| Grid.GridSpringsBuilt | src/simulation.cpp:55-83 | every spring joins particles p1 < p2 of the grid, and its rest length is their distance |
| Grid.RuleShape | src/simulation.cpp:57-81 | a rule adds one spring exactly when its neighbour is on the grid, from the cell to the neighbour at the rule's offset (1, cols, cols + 1, cols - 1, 2 or 2 cols) |
| Grid.OffsetsDiffer | src/simulation.cpp:57-81 | two rules that both apply at a cell reach different neighbours |
| Grid.RulesDistinct | src/simulation.cpp:57-81 | one cell's springs all start at the cell and join no pair twice |
| Grid.FlattenPairsDistinct | src/simulation.cpp:55-83 | lists of springs starting in consecutive bands, each without a repeated pair, join into one list without a repeated pair |
| Grid.GridSpringsDistinct | src/simulation.cpp:55-83 | the constructor joins no pair of particles twice: each edge of the grid is made exactly once |
| Grid.BuiltOnPositive | src/simulation.cpp:55-83 | when no two particles share a start point, every spring has a positive rest length |
| Grid.CellSpringsCount | src/simulation.cpp:59-81 | a cell adds one spring for each of the six rules whose neighbour is on the grid |
| Grid.GridSpringCount | src/simulation.cpp:55-83 | a rows x cols grid has r(c-1) + c(r-1) + 2(r-1)(c-1) + r(c-2) + c(r-2) springs, each term clipped at zero |
| Grid.ClothSpringCount | src/simulation.cpp:55-83 | the 30 x 40 cloth has 6852 springs |
| Grid.PatchSpringCount | src/simulation.cpp:55-83 | a 2 x 2 grid has six springs |
| Grid.MeshIndexOfQuad | src/simulation.cpp:108-119 | corner c of quad (x, y) is entry 6(y(cols-1) + x) + c of the index list |
| Grid.MeshIndices | src/simulation.cpp:106-121 | definition of the index list; its promises are stated by `Grid.MeshLayout`, `Grid.MeshIndexOfQuad` and `Grid.MeshIndicesWithin` |
| Grid.MeshLayout | src/simulation.cpp:106-121 | the list has 6(rows-1)(cols-1) entries; each quad takes six places: top-left, bottom-left, top-right, then top-right, bottom-left, bottom-right |
| Grid.QuadWithin | src/simulation.cpp:108-111 | the four corners of a quad are particles of the grid |
| Grid.MeshIndicesWithin | src/simulation.cpp:106-121 | every index names a particle of the grid |
| Grid.BuildMeshIndices | src/simulation.cpp:106-139 | the index loops for the cloth and for the flag yield `MeshIndices` |
| Modes.ModeAt | include/simulation.hpp:24-29 | the mode of an underlying value has that value |
| Modes.PinningAt | include/simulation.hpp:31-38 | the pinning policy of an underlying value has that value |
| Modes.ModeIndexInjective | include/simulation.hpp:24-29 | distinct modes have distinct values |
| Modes.PinningIndexInjective | include/simulation.hpp:31-38 | distinct policies have distinct values |
| Modes.NextMode | src/simulation.cpp:662 | definition of key E's next mode, (value + 1) % 3; its promises are stated by `Modes.ModeCycle` |
| Modes.NextPinning | src/simulation.cpp:666 | definition of key P's next policy, (value + 1) % 5; its promises are stated by `Modes.PinningCycle` |
| Modes.ModeCycle | src/simulation.cpp:661-664 | key E moves to another mode and returns after three presses; FLAG is followed by TEAR |
| Modes.PinningCycle | src/simulation.cpp:665-668 | key P moves to another policy and returns after five presses; NONE is followed by TOP_ROW |
| Modes.PinnedBy | src/simulation.cpp:152-174 | definition of the policy switch, with no case for ALL; its promises are stated by `Modes.PinnedByGrid` |
| Modes.PinnedByGrid | src/simulation.cpp:146-175 | TOP_ROW pins row 0, CORNERS the two ends of row 0, FLAG column 0, and ALL and NONE pin nothing |
| Layout.HomeOfCell | src/simulation.cpp:39-44 | particle y * cols + x starts at the point of column x, row y |
| Layout.HomeInjective | src/simulation.cpp:39-44 | no two particles start at the same point |
| Layout.HomesDistinct | src/simulation.cpp:39-44 | the start points of the cloth are pairwise distinct |
| Layout.Repinned | src/simulation.cpp:146-175 | keeps one state per particle; its other promises are stated by `Layout.RepinnedTwice` and `Events.HandledPinsAgree` |
| Layout.RepinnedTwice | src/simulation.cpp:146-175 | applyPinning clears every pin first, so only the last policy applied counts |
| Layout.InitialStates | src/simulation.cpp:39-44 | holds one state per particle of the 30 x 40 cloth; its other promises are stated by `Cloth.SpawnParticles`, `Layout.HomeOfCell` and `Layout.HomesDistinct` |
| Layout.Homed | src/simulation.cpp:249-258 | keeps one state per particle; its other promises are stated by `Layout.HomedIsInitial` and `Cloth.Simulation.ReturnHome` |
| Layout.HomedIsInitial | src/simulation.cpp:248-261 | a cloth of unit masses sent home and re-pinned is the cloth the constructor builds under that policy |
| Physics.Min | src/simulation.cpp:183 | the step is at most the elapsed time and at most 1/60, and is one of the two |
| Physics.Max | src/simulation.cpp:224 | the drag divides by at least 1e-4 and at least dt, and by one of the two |
| Physics.SpringForced | src/simulation.cpp:197-199 | one spring's forces change only accelerations |
| Physics.ForcePass | src/simulation.cpp:196-200 | the spring-force loop changes only accelerations |
| Physics.ForcePassConservesMomentum | src/simulation.cpp:196-200 | however many springs act, the total m * a of the cloth is unchanged by the spring-force loop |
| Physics.ForcePassSkipsTorn | src/simulation.cpp:196-200 | with no spring active the spring-force loop changes nothing |
| Physics.ForcePassIgnoresInactive | src/simulation.cpp:196-200 | under any mask, a spring that is not active exerts no force: any other spring in its place gives the same loop result |
| Physics.Gravitated | src/simulation.cpp:204-212 | gravity changes only the acceleration |
| Physics.GravityIgnoresMass | src/simulation.cpp:204-212 | gravity adds 9.81 along -z in COLLISION mode and along -y otherwise, whatever the mass |
| Physics.Blown | src/simulation.cpp:215-228 | the wind changes only the acceleration |
| Physics.StillFlagFeelsNoDrag | src/simulation.cpp:220-225 | a flag particle at rest gets the gust and the lift and no drag |
| Physics.ExternalForces | src/simulation.cpp:202-229 | the external forces on one particle change only its acceleration |
| Physics.ExternalPass | src/simulation.cpp:202-229 | the external-force loop changes only accelerations |
| Physics.VerletPass | src/simulation.cpp:231-233 | every particle takes its own Verlet step |
| Physics.SpringConstrained | src/simulation.cpp:237-239 | one spring's constraint changes only positions and never a pinned particle |
| Physics.SweepPass | src/simulation.cpp:236-240 | a sweep changes only positions and never a pinned particle |
| Physics.SweepPassSkipsTorn | src/simulation.cpp:236-240 | with no spring active a sweep changes nothing |
| Physics.SweepPassIgnoresInactive | src/simulation.cpp:236-240 | under any mask, a spring that is not active constrains nothing: any other spring in its place gives the same sweep |
| Physics.Relax | src/simulation.cpp:235-241 | the sweeps change only positions and never a pinned particle |
| Physics.RelaxSkipsTorn | src/simulation.cpp:235-241 | with no spring active the sweeps change nothing |
| Physics.RelaxIgnoresInactive | src/simulation.cpp:235-241 | under any mask, the five sweeps do not depend on the springs that are not active |
| Physics.Step | src/simulation.cpp:196-241 | definition of the physics of one frame: spring forces, external forces, the Verlet step, five sweeps; its promises are stated by `Physics.StepKeepsPinned`, `Physics.StepKeepsMasses` and `Physics.TornClothFallsFreely` |
| Physics.StepKeepsPinned | src/simulation.cpp:196-241 | a pinned particle ends the physics of a frame at the same position and previous position, still pinned, same mass |
| Physics.StepKeepsMasses | src/simulation.cpp:196-241 | masses and pins survive the physics of a frame |
| Physics.TornClothFallsFreely | src/simulation.cpp:196-241 | with every spring torn, each particle takes only its external forces and its Verlet step |
| Interaction.Clamp | src/simulation.cpp:572 | the clamped value lies in [lo, hi], and a value already inside is kept |
| Interaction.ClosestOnSegment | src/simulation.cpp:567-573 | definition of the clamped projection onto the spring; its promise is stated by `Interaction.ClosestIsOnSpring` |
| Interaction.ClosestIsOnSpring | src/simulation.cpp:565-573 | the clamped closest point is p1 + s(p2 - p1) for some s between 0 and 1, so it lies on the spring, no farther from p1 than p2 |
| Interaction.NoRadiusTearsNothing | src/simulation.cpp:547-584 | a radius of zero or less cuts no spring |
| Interaction.TearsSpring | src/simulation.cpp:556-581 | definition of the tear test; its promises are stated by `Interaction.NoRadiusTearsNothing`, `Interaction.NearEndpointTears`, `Interaction.CollapsedSpringTears` and `Interaction.TearGrowsWithRadius` |
| Interaction.NearEndpointTears | src/simulation.cpp:556-563 | an endpoint strictly within the radius cuts the spring |
| Interaction.CollapsedSpringTears | src/simulation.cpp:556-581 | a zero-length spring at the tear point is cut exactly when the radius is positive |
| Interaction.TearGrowsWithRadius | src/simulation.cpp:547-584 | a larger radius cuts every spring a smaller one cuts |
| Interaction.TearMask | src/simulation.cpp:547-584 | the tear keeps one flag per spring |
| Interaction.TearOnlyCuts | src/simulation.cpp:550-582 | a tear never activates a spring; an active spring is deactivated exactly when the tear cuts it |
| Interaction.TearIdempotent | src/simulation.cpp:547-584 | tearing twice at the same point cuts nothing more |
| Interaction.NoRadiusMaskUnchanged | src/simulation.cpp:547-584 | a tear with no radius leaves every flag as it was |
| Interaction.RayDistanceSq | src/simulation.cpp:596-601 | the squared distance from a particle to the ray's line is never negative |
| Interaction.PointOnRayIsNearest | src/simulation.cpp:596-601 | a point on the line of a unit ray is at distance zero |
| Interaction.RayDistances | src/simulation.cpp:594-601 | one non-negative distance per particle |
| Interaction.Scan | src/simulation.cpp:587-607 | the search holds no index and float max, or an index already seen and its distance |
| Interaction.ScanFindsFirstNearest | src/simulation.cpp:594-607 | the search ends on the first particle of smallest distance below float max, or on none when all are at float max or beyond |
| Interaction.FirstNearestUnique | src/simulation.cpp:603-606 | there is at most one first nearest particle |
| Interaction.Picked | src/simulation.cpp:586-614 | a picked index names a particle |
| Interaction.PickedIsFirstNearestInReach | src/simulation.cpp:586-614 | particle k is picked exactly when it is the first nearest and its squared distance is below (2 * tearRadius)^2 |
| Interaction.NothingToPick | src/simulation.cpp:590-592 | with no particles nothing is picked |
| Events.ActiveAfterEvent | src/simulation.cpp:658-664 | an event keeps one flag per spring |
| Events.Handled | src/simulation.cpp:637-706 | an event keeps the cloth 30 x 40 with unit masses |
| Events.HandledAll | src/simulation.cpp:637-707 | the polled events keep the cloth 30 x 40 with unit masses |
| Events.FlagForced | src/simulation.cpp:187-192 | forcing FLAG pinning keeps the cloth's shape |
| Events.TornByMouse | src/simulation.cpp:533-545 | the mouse's tear keeps one flag per spring |
| Events.MouseHandled | src/simulation.cpp:527-531 | the mouse changes neither the controls nor the particles |
| Events.Frame | src/simulation.cpp:177-241 | a frame keeps the cloth 30 x 40 with unit masses |
| Events.AfterEvent | src/simulation.cpp:637-706 | definition of the controls after one event; its promises are stated by `Events.EventModes`, `Events.EventRunning` and `Events.SpaceReleasesMouse` |
| Events.StatesAfterEvent | src/simulation.cpp:658-668 | definition of the particles after one event: R and E rebuild the cloth, P re-pins it; its promises are stated by `Events.HandledPinsAgree` and `Layout.HomedIsInitial` |
| Events.EventModes | src/simulation.cpp:658-668 | only E changes the mode, to the next one; R and E bring back TOP_ROW; P moves to the next policy |
| Events.EventRunning | src/simulation.cpp:637-706 | Escape and quit stop the loop and no event restarts it |
| Events.SpaceReleasesMouse | src/simulation.cpp:669-673 | Space toggles the camera, and turning it on releases the left button |
| Events.ClickTearsWithCameraOn | src/simulation.cpp:678-683 | a left click presses the button whatever the camera does, so in TEAR mode the mouse tears even with the camera on |
| Events.HandledPinsAgree | src/simulation.cpp:637-706 | after any event the pins are exactly those of the current policy |
| Events.HandledAllPinsAgree | src/simulation.cpp:637-707 | after all the polled events the pins are exactly those of the current policy |
| Events.FramePinsAgree | src/simulation.cpp:185-241 | after a frame the pins are those of the policy, and in FLAG mode the policy is FLAG |
| Events.FlagPoleStaysPut | src/simulation.cpp:187-241 | in FLAG mode every particle of the left column ends the frame where the events left it |
| Events.TornStaysTorn | src/simulation.cpp:637-706 | without R or E no event reactivates a spring |
| Events.FrameKeepsTorn | src/simulation.cpp:185-241 | without R or E a torn spring is still torn after the frame |
| Cloth.StatesOf | src/simulation.cpp:39-44 | one state per particle object |
| Cloth.SpawnParticles | src/simulation.cpp:39-44 | 30 x 40 distinct new particles of mass 1, particle y * cols + x at rest at (x * 0.18, -y * 0.18, 0), none pinned |
| Cloth.BuildCloth | src/simulation.cpp:39-83 | the particles, and the springs of `GridSprings` on their start points, every spring fitting the particle array with a non-zero rest length |
| Cloth.Simulation.constructor | src/simulation.cpp:3-144 | TEAR mode, TOP_ROW pinning applied, the grid and its springs, both index lists, all springs active, mouse up, camera off, tear radius 0.1 |
| Cloth.Simulation.ApplyPinning | src/simulation.cpp:146-175 | the particles are `Repinned` under the current policy: pins cleared, then the policy's particles pinned |
| Cloth.Simulation.ClearPins | src/simulation.cpp:148-150 | every pin cleared, nothing else changed |
| Cloth.Simulation.PinTopRowParticles | src/simulation.cpp:153-157 | the first cols particles pinned |
| Cloth.Simulation.PinCornerParticles | src/simulation.cpp:159-162 | particles 0 and cols - 1 pinned |
| Cloth.Simulation.PinFlagColumn | src/simulation.cpp:164-170 | particles y * cols pinned |
| Cloth.Simulation.ReturnHome | src/simulation.cpp:249-258 | every particle back at its start point, at rest, with no acceleration |
| Cloth.Simulation.ActivateAll | src/simulation.cpp:263 | every spring active |
| Cloth.Simulation.Reset | src/simulation.cpp:248-263 | the particles are the constructor's, under TOP_ROW pinning, and every spring is active |
| Cloth.Simulation.TearSpringsAroundPoint | src/simulation.cpp:547-584 | the active flags become `TearMask` of the old ones at worldPos |
| Cloth.Simulation.FindClosestParticleToRay | src/simulation.cpp:586-614 | the result is `Picked` of the particles' distances to the ray, with reach 2 * tearRadius |
| Cloth.Simulation.HandleMouseTearing | src/simulation.cpp:533-545 | while the left button is down the flags become `TornByMouse`; otherwise they are unchanged |
| Cloth.Simulation.HandleMouseActivity | src/simulation.cpp:527-531 | the state becomes `MouseHandled` of the old one: tearing only in TEAR mode |
| Cloth.Simulation.ApplySpringForce | src/simulation.cpp:197-199 | the particles become `SpringForced` |
| Cloth.Simulation.ApplySpringForces | src/simulation.cpp:196-200 | the particles become `ForcePass` over every spring |
| Cloth.Simulation.ApplyExternalForces | src/simulation.cpp:202-229 | the particles become `ExternalPass` |
| Cloth.Simulation.UpdateParticles | src/simulation.cpp:231-233 | the particles become `VerletPass` |
| Cloth.Simulation.ConstrainSpring | src/simulation.cpp:237-239 | the particles become `SpringConstrained` |
| Cloth.Simulation.Sweep | src/simulation.cpp:236-240 | the particles become `SweepPass` over every spring |
| Cloth.Simulation.SatisfyConstraints | src/simulation.cpp:235-241 | the particles become `Relax` with five sweeps |
| Cloth.Simulation.StepPhysics | src/simulation.cpp:196-241 | the particles become `Step` of the old ones |
| Cloth.Simulation.ProcessEvent | src/simulation.cpp:637-706 | the controls, particles and flags become `AfterEvent`, `StatesAfterEvent` and `ActiveAfterEvent` of the old ones |
| Cloth.Simulation.ProcessEvents | src/simulation.cpp:637-707 | the state becomes `HandledAll` of the old one |
| Cloth.Simulation.ForceFlagPinning | src/simulation.cpp:187-192 | the state becomes `FlagForced` of the old one |
| Cloth.Simulation.RunFrame | src/simulation.cpp:177-241 | the state becomes `Frame` of the old one, with the step clamped to 1/60 s |

## Left out

- Rendering, SDL windows, OpenGL buffers, textures and their coordinates (src/simulation.cpp:85-103) are not modelled. Normal computation (computeNormals), collision shapes and the camera are not modelled either, because none of them changes the physics state modelled here.
- screenToWorld and the cursor position are not modelled. The ray's near point and its unit direction are inputs of `RunFrame` and `HandleMouseTearing`.
- Mouse motion and window resize events change only the cursor position, the camera or the viewport, so they are not modelled.
- The camera's WASD keys (src/simulation.cpp:622-635) are not modelled.
- The SDL_SetWindowFullscreen and SDL_SetWindowRelativeMouseMode calls are not modelled. Only the flags they follow are kept.
- The camera set-up at the end of reset (src/simulation.cpp:265-283) is not modelled.
- SDL_GetTicks is not modelled.
  - The elapsed time is an input of `RunFrame`.
  - The wind gust `8 + 5 sin(1.5t) + 3 sin(0.5t + 1)` is an input, given per particle, because the source reads the clock once for each particle.
  - Its trigonometry is not modelled.
- init(), which sets `running`, and the while loop around the frame are not modelled. One pass of the loop is `Cloth.Simulation.RunFrame`.
- The tornCount counter in tearSpringsAroundPoint is not modelled, because nothing reads it.
- IEEE single-precision floats are not modelled; the model uses exact reals.
  - `glm::length` and `std::sqrt` are assumed only to give the exact non-negative square root.
  - `pow(ratio, 3)` is an exact cube.
  - Consequently, rounding, overflow, infinities and NaN are not captured.
- Particles.Particle.AddForce: requires a non-zero mass, where the source would divide by zero. Every particle has mass 1.
- Springs.ApplyForces: requires a non-zero rest length, where the source's stretch ratio would divide by zero. `Grid.BuiltOnPositive` shows that every spring the constructor builds has a positive rest length.
- Cloth.Simulation.FindClosestParticleToRay: returns the index of the particle rather than a pointer to it.
