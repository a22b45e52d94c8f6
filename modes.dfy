/** The simulation mode and the pinning policy (include/simulation.hpp:24-38),
    the order in which keys E and P cycle them, and which particles each
    pinning policy pins (src/simulation.cpp:146-175). */
module Modes {
  import opened Grid

  datatype SimMode = Tear | Collision | Flag

  datatype PinningMode = PinTopRow | PinAll | PinCorners | PinFlag | PinNone

  /** SIMMODE::LAST and PINNINGMODE::LAST: the number of real enumerators. */
  const ModeCount: nat := 3
  const PinningCount: nat := 5

  /** The enumerator's underlying value, static_cast<int>. */
  function ModeIndex(m: SimMode): (r: nat)
    ensures r < ModeCount
  {
    match m
    case Tear => 0
    case Collision => 1
    case Flag => 2
  }

  function ModeAt(i: nat): (m: SimMode)
    requires i < ModeCount
    ensures ModeIndex(m) == i
  {
    if i == 0 then Tear else if i == 1 then Collision else Flag
  }

  function PinningIndex(p: PinningMode): (r: nat)
    ensures r < PinningCount
  {
    match p
    case PinTopRow => 0
    case PinAll => 1
    case PinCorners => 2
    case PinFlag => 3
    case PinNone => 4
  }

  function PinningAt(i: nat): (p: PinningMode)
    requires i < PinningCount
    ensures PinningIndex(p) == i
  {
    if i == 0 then PinTopRow
    else if i == 1 then PinAll
    else if i == 2 then PinCorners
    else if i == 3 then PinFlag
    else PinNone
  }

  /** Distinct enumerators have distinct values, so a value names one mode. */
  lemma ModeIndexInjective(a: SimMode, b: SimMode)
    requires ModeIndex(a) == ModeIndex(b)
    ensures a == b
  {
  }

  lemma PinningIndexInjective(a: PinningMode, b: PinningMode)
    requires PinningIndex(a) == PinningIndex(b)
    ensures a == b
  {
  }

  /** Key E: the next mode, (value + 1) % LAST. */
  function NextMode(m: SimMode): SimMode {
    ModeAt((ModeIndex(m) + 1) % ModeCount)
  }

  /** Key P: the next pinning policy, (value + 1) % LAST. */
  function NextPinning(p: PinningMode): PinningMode {
    PinningAt((PinningIndex(p) + 1) % PinningCount)
  }

  /** Key E visits every mode in turn: TEAR, COLLISION, FLAG, TEAR. */
  lemma ModeCycle(m: SimMode)
    ensures NextMode(m) != m
    ensures NextMode(NextMode(m)) != m
    ensures NextMode(NextMode(NextMode(m))) == m
    ensures NextMode(Flag) == Tear
  {
  }

  /** Key P visits all five policies before it comes back. */
  lemma PinningCycle(p: PinningMode)
    ensures NextPinning(p) != p
    ensures NextPinning(NextPinning(NextPinning(NextPinning(NextPinning(p))))) == p
    ensures NextPinning(PinNone) == PinTopRow
  {
  }

  /** Whether policy `mode` pins particle k of the rows x cols grid. ALL has
      no case in applyPinning's switch, so it pins nothing, like NONE. */
  function PinnedBy(mode: PinningMode, k: nat): bool {
    match mode
    case PinTopRow => k < Cols
    case PinCorners => k == 0 || k == Cols - 1
    case PinFlag => k % Cols == 0
    case PinAll => false
    case PinNone => false
  }

  /** The pinned particles of each policy, by grid position: the whole top
      row, its two ends, the whole left column, or none. */
  lemma PinnedByGrid(mode: PinningMode, x: nat, y: nat)
    requires x < Cols && y < Rows
    ensures PinnedBy(mode, y * Cols + x)
         <==> match mode
              case PinTopRow => y == 0
              case PinCorners => y == 0 && (x == 0 || x == Cols - 1)
              case PinFlag => x == 0
              case PinAll => false
              case PinNone => false
  {
  }
}
