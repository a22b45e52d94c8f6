/** Where the particles of the rows x cols cloth start (src/simulation.cpp:39-44
    and 248-258), and the particle states that the constructor, reset() and
    applyPinning() leave behind, stated on values. */
module Layout {
  import opened Vectors
  import opened Particles
  import opened Grid
  import opened Modes

  /** Where particle k starts: column k % Cols of row k / Cols. */
  function Home(k: nat): Vec3 {
    GridPos(k % Cols, k / Cols)
  }

  /** Index y * cols + x is the particle of column x, row y. */
  lemma HomeOfCell(x: nat, y: nat)
    requires x < Cols
    ensures Home(y * Cols + x) == GridPos(x, y)
  {
  }

  /** No two particles start at the same point. */
  lemma HomeInjective(a: nat, b: nat)
    requires Home(a) == Home(b)
    ensures a == b
  {
    GridPosInjective(a % Cols, a / Cols, b % Cols, b / Cols);
  }

  function Homes(): (r: seq<Vec3>)
    ensures |r| == Rows * Cols
    ensures forall k :: 0 <= k < |r| ==> r[k] == Home(k)
  {
    seq(Rows * Cols, k requires 0 <= k => Home(k))
  }

  lemma HomesDistinct()
    ensures forall a, b :: 0 <= a < b < |Homes()| ==> Homes()[a] != Homes()[b]
  {
    forall a, b | 0 <= a < b < |Homes()|
      ensures Homes()[a] != Homes()[b]
    {
      if Homes()[a] == Homes()[b] {
        HomeInjective(a, b);
      }
    }
  }

  /** Particle k of a cloth just built or reset under pinning `pinning`: at
      rest at its home, mass 1. */
  function RestState(k: nat, pinning: PinningMode): PState {
    PState(Home(k), Home(k), Zero, 1.0, PinnedBy(pinning, k))
  }

  function InitialStates(pinning: PinningMode): (r: seq<PState>)
    ensures |r| == Rows * Cols
  {
    seq(Rows * Cols, k requires 0 <= k => RestState(k, pinning))
  }

  /** The particles after applyPinning under `pinning`: every pin is
      cleared, then the policy's particles are pinned; nothing else moves. */
  function Repinned(st: seq<PState>, pinning: PinningMode): (r: seq<PState>)
    ensures |r| == |st|
  {
    seq(|st|, k requires 0 <= k < |st| => st[k].(pinned := PinnedBy(pinning, k)))
  }

  /** A particle as reset() leaves it before re-pinning: back home, at rest. */
  function Restarted(p: PState, k: nat): PState {
    p.(position := Home(k), prevPosition := Home(k), acceleration := Zero)
  }

  function Positions(st: seq<PState>): (r: seq<Vec3>)
    ensures |r| == |st|
    ensures forall k :: 0 <= k < |st| ==> r[k] == st[k].position
  {
    seq(|st|, k requires 0 <= k < |st| => st[k].position)
  }

  /** The particles as reset() leaves them before re-pinning. */
  function Homed(st: seq<PState>): (r: seq<PState>)
    ensures |r| == |st|
  {
    seq(|st|, k requires 0 <= k < |st| => Restarted(st[k], k))
  }

  /** Only the last pinning counts. */
  lemma RepinnedTwice(st: seq<PState>, a: PinningMode, b: PinningMode)
    ensures Repinned(Repinned(st, a), b) == Repinned(st, b)
  {
    assert forall k :: 0 <= k < |st| ==> Repinned(Repinned(st, a), b)[k] == Repinned(st, b)[k];
  }

  /** Sending a cloth of unit masses home and pinning it gives the cloth the
      constructor builds under that pinning, whatever state it was in. */
  lemma HomedIsInitial(st: seq<PState>, pinning: PinningMode)
    requires |st| == Rows * Cols && forall k :: 0 <= k < |st| ==> st[k].mass == 1.0
    ensures Repinned(Homed(st), pinning) == InitialStates(pinning)
  {
    assert forall k :: 0 <= k < |st| ==> Repinned(Homed(st), pinning)[k] == InitialStates(pinning)[k];
  }
}
