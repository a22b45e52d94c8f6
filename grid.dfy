/** The cloth's layout, as the simulation's constructor builds it
    (src/simulation.cpp:39-139): a rows x cols grid of particles, the springs
    between them, and the triangle index list of the rendered mesh. */
module Grid {
  import opened Vectors
  import opened Springs

  const Rows: nat := 30
  const Cols: nat := 40
  const Spacing: real := 0.18

  const StructuralStiffness: real := 200.0
  const ShearStiffness: real := 100.0
  const BendStiffness: real := 50.0
  const StructuralDamping: real := 10.0
  const ShearDamping: real := 8.0
  const BendDamping: real := 5.0

  /** Where the particle of column x, row y starts: rows go down the y axis. */
  function GridPos(x: nat, y: nat): Vec3 {
    Vec3(x as real * Spacing, -(y as real) * Spacing, 0.0)
  }

  /** Distinct grid cells start at distinct points. */
  lemma GridPosInjective(x1: nat, y1: nat, x2: nat, y2: nat)
    requires GridPos(x1, y1) == GridPos(x2, y2)
    ensures x1 == x2 && y1 == y2
  {
    assert x1 as real * Spacing == x2 as real * Spacing;
    assert -(y1 as real) * Spacing == -(y2 as real) * Spacing;
  }

  /** `k` clipped below at zero. */
  function Pos(k: int): nat {
    if k < 0 then 0 else k
  }

  /** How many of 0 .. n-1 are below k. */
  function Below(n: nat, k: int): nat {
    if k <= 0 then 0 else if n < k then n else k
  }

  lemma MulMono(a: nat, b: nat, c: nat)
    requires a <= b
    ensures a * c <= b * c
  {
  }

  lemma MulMonoIf(a: int, b: int, c: int)
    ensures 0 <= c && a <= b ==> a * c <= b * c
  {
  }

  lemma MulSucc(n: int, k: int)
    ensures (n + 1) * k == n * k + k
  {
  }

  lemma MulAdd(a: int, b: int, c: int)
    ensures a * (b + c) == a * b + a * c
  {
  }

  /** The index arithmetic of one grid cell: the rows below row y start
      where the grid still has room for them. */
  lemma CellBounds(rows: nat, cols: nat, x: nat, y: nat)
    requires x < cols && y < rows
    ensures y * cols + cols <= rows * cols
    ensures y + 1 < rows ==> y * cols + 2 * cols <= rows * cols
    ensures y + 2 < rows ==> y * cols + 3 * cols <= rows * cols
  {
    MulSucc(y, cols);
    MulSucc(y + 1, cols);
    MulSucc(y + 2, cols);
    MulMono(y + 1, rows, cols);
    if y + 1 < rows {
      MulMono(y + 2, rows, cols);
    }
    if y + 2 < rows {
      MulMono(y + 3, rows, cols);
    }
  }

  /** Rule r of the six by which the constructor connects the particle of
      column x, row y: structural to the right and down, shear down-right and
      down-left, bend two to the right and two down. Each gives one spring,
      at rest between its endpoints' positions `pos`, or none where the
      neighbour lies off the grid. */
  function Rule(rows: nat, cols: nat, x: nat, y: nat, r: nat, pos: seq<Vec3>, length: Vec3 -> real): seq<Spring>
    requires IsLengthFn(length) && |pos| == rows * cols && x < cols && y < rows
  {
    CellBounds(rows, cols, x, y);
    var idx := y * cols + x;
    if r == 0 then
      if x + 1 < cols then
        [NewSpring(idx, idx + 1, pos[idx], pos[idx + 1], StructuralStiffness, StructuralDamping, length)]
      else []
    else if r == 1 then
      if y + 1 < rows then
        [NewSpring(idx, idx + cols, pos[idx], pos[idx + cols], StructuralStiffness, StructuralDamping, length)]
      else []
    else if r == 2 then
      if x + 1 < cols && y + 1 < rows then
        [NewSpring(idx, idx + cols + 1, pos[idx], pos[idx + cols + 1], ShearStiffness, ShearDamping, length)]
      else []
    else if r == 3 then
      if 0 < x && y + 1 < rows then
        [NewSpring(idx, idx + cols - 1, pos[idx], pos[idx + cols - 1], ShearStiffness, ShearDamping, length)]
      else []
    else if r == 4 then
      if x + 2 < cols then
        [NewSpring(idx, idx + 2, pos[idx], pos[idx + 2], BendStiffness, BendDamping, length)]
      else []
    else if r == 5 then
      if y + 2 < rows then
        [NewSpring(idx, idx + 2 * cols, pos[idx], pos[idx + 2 * cols], BendStiffness, BendDamping, length)]
      else []
    else []
  }

  /** The springs of the first n rules at one particle, in order. */
  function Rules(rows: nat, cols: nat, x: nat, y: nat, n: nat, pos: seq<Vec3>, length: Vec3 -> real): seq<Spring>
    requires IsLengthFn(length) && |pos| == rows * cols && x < cols && y < rows
  {
    if n == 0 then [] else Rules(rows, cols, x, y, n - 1, pos, length) + Rule(rows, cols, x, y, n - 1, pos, length)
  }

  /** The springs the constructor makes at the particle of column x, row y,
      in the order it makes them. */
  function CellSprings(rows: nat, cols: nat, x: nat, y: nat, pos: seq<Vec3>, length: Vec3 -> real): seq<Spring>
    requires IsLengthFn(length) && |pos| == rows * cols && x < cols && y < rows
  {
    Rules(rows, cols, x, y, 6, pos, length)
  }

  /** The springs each particle of row y makes, column by column. */
  function RowCells(rows: nat, cols: nat, y: nat, pos: seq<Vec3>, length: Vec3 -> real): (r: seq<seq<Spring>>)
    requires IsLengthFn(length) && |pos| == rows * cols && y < rows
    ensures |r| == cols
    ensures forall x :: 0 <= x < cols ==> r[x] == CellSprings(rows, cols, x, y, pos, length)
  {
    seq(cols, x requires 0 <= x < cols => CellSprings(rows, cols, x, y, pos, length))
  }

  /** The lists of `ss` one after another. */
  function Flatten(ss: seq<seq<Spring>>): seq<Spring> {
    if |ss| == 0 then [] else Flatten(ss[..|ss| - 1]) + ss[|ss| - 1]
  }

  /** The springs the particles of row y make, in the order the constructor
      makes them. */
  function RowSprings(rows: nat, cols: nat, y: nat, pos: seq<Vec3>, length: Vec3 -> real): seq<Spring>
    requires IsLengthFn(length) && |pos| == rows * cols && y < rows
  {
    Flatten(RowCells(rows, cols, y, pos, length))
  }

  /** The springs of each row. */
  function GridRows(rows: nat, cols: nat, pos: seq<Vec3>, length: Vec3 -> real): (r: seq<seq<Spring>>)
    requires IsLengthFn(length) && |pos| == rows * cols
    ensures |r| == rows
    ensures forall y :: 0 <= y < rows ==> r[y] == RowSprings(rows, cols, y, pos, length)
  {
    seq(rows, y requires 0 <= y < rows => RowSprings(rows, cols, y, pos, length))
  }

  /** Every spring of the grid whose particles sit at `pos`, in the order
      the constructor makes them: particle by particle, row by row. */
  function GridSprings(rows: nat, cols: nat, pos: seq<Vec3>, length: Vec3 -> real): seq<Spring>
    requires IsLengthFn(length) && |pos| == rows * cols
  {
    Flatten(GridRows(rows, cols, pos, length))
  }

  /** Taking one more list adds it at the end. */
  lemma FlattenGrows(ss: seq<seq<Spring>>, m: nat)
    requires m < |ss|
    ensures Flatten(ss[..m + 1]) == Flatten(ss[..m]) + ss[m]
  {
    assert ss[..m + 1][..m] == ss[..m];
  }

  /** Every spring of `springs` joins two particles of `pos`, the smaller
      index first, and its rest length is their distance in `pos`. */
  ghost predicate BuiltOn(springs: seq<Spring>, pos: seq<Vec3>, length: Vec3 -> real) {
    forall k :: 0 <= k < |springs| ==>
      springs[k].p1 < springs[k].p2 < |pos|
      && springs[k].restLength == length(Sub(pos[springs[k].p1], pos[springs[k].p2]))
  }

  lemma BuiltOnAppend(a: seq<Spring>, b: seq<Spring>, pos: seq<Vec3>, length: Vec3 -> real)
    requires BuiltOn(a, pos, length) && BuiltOn(b, pos, length)
    ensures BuiltOn(a + b, pos, length)
  {
    forall k | |a| <= k < |a + b|
      ensures (a + b)[k] == b[k - |a|]
    {
    }
  }

  /** CellSprings spelled out rule by rule. */
  lemma CellSpringsRules(rows: nat, cols: nat, x: nat, y: nat, pos: seq<Vec3>, length: Vec3 -> real)
    requires IsLengthFn(length) && |pos| == rows * cols && x < cols && y < rows
    ensures CellSprings(rows, cols, x, y, pos, length)
         == Rule(rows, cols, x, y, 0, pos, length) + Rule(rows, cols, x, y, 1, pos, length)
            + Rule(rows, cols, x, y, 2, pos, length) + Rule(rows, cols, x, y, 3, pos, length)
            + Rule(rows, cols, x, y, 4, pos, length) + Rule(rows, cols, x, y, 5, pos, length)
  {
    assert Rules(rows, cols, x, y, 1, pos, length) == Rule(rows, cols, x, y, 0, pos, length);
    assert Rules(rows, cols, x, y, 3, pos, length)
        == Rules(rows, cols, x, y, 2, pos, length) + Rule(rows, cols, x, y, 2, pos, length);
    assert Rules(rows, cols, x, y, 5, pos, length)
        == Rules(rows, cols, x, y, 4, pos, length) + Rule(rows, cols, x, y, 4, pos, length);
  }

  lemma RuleBuilt(rows: nat, cols: nat, x: nat, y: nat, r: nat, pos: seq<Vec3>, length: Vec3 -> real)
    requires IsLengthFn(length) && |pos| == rows * cols && x < cols && y < rows
    ensures BuiltOn(Rule(rows, cols, x, y, r, pos, length), pos, length)
  {
    CellBounds(rows, cols, x, y);
  }

  lemma {:induction false} RulesBuilt(rows: nat, cols: nat, x: nat, y: nat, n: nat, pos: seq<Vec3>, length: Vec3 -> real)
    requires IsLengthFn(length) && |pos| == rows * cols && x < cols && y < rows
    ensures BuiltOn(Rules(rows, cols, x, y, n, pos, length), pos, length)
  {
    if n > 0 {
      RulesBuilt(rows, cols, x, y, n - 1, pos, length);
      RuleBuilt(rows, cols, x, y, n - 1, pos, length);
      BuiltOnAppend(Rules(rows, cols, x, y, n - 1, pos, length), Rule(rows, cols, x, y, n - 1, pos, length), pos, length);
    }
  }

  lemma {:induction false} FlattenBuilt(ss: seq<seq<Spring>>, pos: seq<Vec3>, length: Vec3 -> real)
    requires forall k :: 0 <= k < |ss| ==> BuiltOn(ss[k], pos, length)
    ensures BuiltOn(Flatten(ss), pos, length)
  {
    if |ss| > 0 {
      FlattenBuilt(ss[..|ss| - 1], pos, length);
      BuiltOnAppend(Flatten(ss[..|ss| - 1]), ss[|ss| - 1], pos, length);
    }
  }

  /** Every spring joins two particles of the grid, never a particle to
      itself, and starts at its rest length: the distance between its
      endpoints' positions. */
  lemma GridSpringsBuilt(rows: nat, cols: nat, pos: seq<Vec3>, length: Vec3 -> real)
    requires IsLengthFn(length) && |pos| == rows * cols
    ensures BuiltOn(GridSprings(rows, cols, pos, length), pos, length)
  {
    var grid := GridRows(rows, cols, pos, length);
    forall y | 0 <= y < rows
      ensures BuiltOn(grid[y], pos, length)
    {
      var cells := RowCells(rows, cols, y, pos, length);
      forall x | 0 <= x < cols
        ensures BuiltOn(cells[x], pos, length)
      {
        RulesBuilt(rows, cols, x, y, 6, pos, length);
      }
      FlattenBuilt(cells, pos, length);
    }
    FlattenBuilt(grid, pos, length);
  }

  /** Whether rule r adds a spring at the particle of column x, row y: its
      neighbour is on the grid. */
  predicate Applies(rows: nat, cols: nat, x: nat, y: nat, r: nat) {
    if r == 0 then x + 1 < cols
    else if r == 1 then y + 1 < rows
    else if r == 2 then x + 1 < cols && y + 1 < rows
    else if r == 3 then 0 < x && y + 1 < rows
    else if r == 4 then x + 2 < cols
    else if r == 5 then y + 2 < rows
    else false
  }

  /** How far past its own particle the neighbour of rule r lies. */
  function Offset(cols: nat, r: nat): int {
    if r == 0 then 1
    else if r == 1 then cols
    else if r == 2 then cols + 1
    else if r == 3 then cols - 1
    else if r == 4 then 2
    else 2 * cols
  }

  /** Rule r gives at most one spring: from the cell to the neighbour at
      Offset(cols, r), and only when the rule applies. */
  lemma RuleShape(rows: nat, cols: nat, x: nat, y: nat, r: nat, pos: seq<Vec3>, length: Vec3 -> real)
    requires IsLengthFn(length) && |pos| == rows * cols && x < cols && y < rows
    ensures |Rule(rows, cols, x, y, r, pos, length)| == (if Applies(rows, cols, x, y, r) then 1 else 0)
    ensures Applies(rows, cols, x, y, r) ==>
      Rule(rows, cols, x, y, r, pos, length)[0].p1 == y * cols + x
      && Rule(rows, cols, x, y, r, pos, length)[0].p2 == y * cols + x + Offset(cols, r)
  {
  }

  /** Two rules that both apply at a cell reach different neighbours. */
  lemma OffsetsDiffer(rows: nat, cols: nat, x: nat, y: nat, r: nat, q: nat)
    requires x < cols && r < q
    requires Applies(rows, cols, x, y, r) && Applies(rows, cols, x, y, q)
    ensures Offset(cols, r) != Offset(cols, q)
  {
  }

  /** No two springs join the same pair of particles. */
  predicate PairsDistinct(s: seq<Spring>) {
    forall a, b :: 0 <= a < b < |s| ==> s[a].p1 != s[b].p1 || s[a].p2 != s[b].p2
  }

  /** Every spring starts at a particle of lo .. hi - 1. */
  predicate StartsWithin(s: seq<Spring>, lo: int, hi: int) {
    forall a :: 0 <= a < |s| ==> lo <= s[a].p1 < hi
  }

  /** Every spring of s leaves particle idx for the neighbour of one of the
      first n rules that apply at the cell. */
  ghost predicate FromRules(s: seq<Spring>, rows: nat, cols: nat, x: nat, y: nat, n: nat) {
    forall k :: 0 <= k < |s| ==>
      s[k].p1 == y * cols + x
      && exists r :: 0 <= r < n && Applies(rows, cols, x, y, r) && s[k].p2 == y * cols + x + Offset(cols, r)
  }

  lemma {:induction false} RulesDistinct(rows: nat, cols: nat, x: nat, y: nat, n: nat, pos: seq<Vec3>, length: Vec3 -> real)
    requires IsLengthFn(length) && |pos| == rows * cols && x < cols && y < rows
    ensures PairsDistinct(Rules(rows, cols, x, y, n, pos, length))
    ensures FromRules(Rules(rows, cols, x, y, n, pos, length), rows, cols, x, y, n)
  {
    if n > 0 {
      RulesDistinct(rows, cols, x, y, n - 1, pos, length);
      RuleShape(rows, cols, x, y, n - 1, pos, length);
      AppendRule(Rules(rows, cols, x, y, n - 1, pos, length), Rule(rows, cols, x, y, n - 1, pos, length),
                 rows, cols, x, y, n);
    }
  }

  /** The rule that made spring k of s. */
  lemma RuleOf(s: seq<Spring>, rows: nat, cols: nat, x: nat, y: nat, n: nat, k: nat) returns (r: nat)
    requires FromRules(s, rows, cols, x, y, n) && k < |s|
    ensures r < n && Applies(rows, cols, x, y, r) && s[k].p2 == y * cols + x + Offset(cols, r)
  {
    assert s[k].p1 == y * cols + x;
    assert exists r' :: 0 <= r' < n && Applies(rows, cols, x, y, r') && s[k].p2 == y * cols + x + Offset(cols, r');
    r :| 0 <= r < n && Applies(rows, cols, x, y, r) && s[k].p2 == y * cols + x + Offset(cols, r);
  }

  /** Adding the spring of rule n - 1 to those of the earlier rules repeats
      no pair: its neighbour differs from theirs. */
  lemma AppendRule(pre: seq<Spring>, last: seq<Spring>, rows: nat, cols: nat, x: nat, y: nat, n: nat)
    requires x < cols && 0 < n
    requires PairsDistinct(pre) && FromRules(pre, rows, cols, x, y, n - 1)
    requires |last| == (if Applies(rows, cols, x, y, n - 1) then 1 else 0)
    requires Applies(rows, cols, x, y, n - 1) ==>
      last[0].p1 == y * cols + x && last[0].p2 == y * cols + x + Offset(cols, n - 1)
    ensures PairsDistinct(pre + last) && FromRules(pre + last, rows, cols, x, y, n)
  {
    var s := pre + last;
    forall a, b | 0 <= a < b < |s|
      ensures s[a].p1 != s[b].p1 || s[a].p2 != s[b].p2
    {
      if |pre| <= b {
        var r := RuleOf(pre, rows, cols, x, y, n - 1, a);
        OffsetsDiffer(rows, cols, x, y, r, n - 1);
      }
    }
    forall k | 0 <= k < |s|
      ensures s[k].p1 == y * cols + x
      ensures exists r :: 0 <= r < n && Applies(rows, cols, x, y, r) && s[k].p2 == y * cols + x + Offset(cols, r)
    {
      if k < |pre| {
        var r := RuleOf(pre, rows, cols, x, y, n - 1, k);
        assert s[k] == pre[k];
      } else {
        assert s[k] == last[0];
      }
    }
  }

  /** Lists whose springs start in consecutive bands of width w, each list
      without a repeated pair, flatten to a list without a repeated pair. */
  lemma {:induction false} FlattenPairsDistinct(ss: seq<seq<Spring>>, base: int, w: nat)
    requires forall i :: 0 <= i < |ss| ==> PairsDistinct(ss[i]) && StartsWithin(ss[i], base + i * w, base + i * w + w)
    ensures PairsDistinct(Flatten(ss)) && StartsWithin(Flatten(ss), base, base + |ss| * w)
  {
    if |ss| > 0 {
      var n := |ss| - 1;
      var pre := ss[..n];
      FlattenPairsDistinct(pre, base, w);
      var f: seq<Spring> := Flatten(pre);
      var last: seq<Spring> := ss[n];
      var s: seq<Spring> := f + last;
      assert Flatten(ss) == s;
      MulSucc(n, w);
      assert 0 <= n * w;
      forall a, b | 0 <= a < b < |s|
        ensures s[a].p1 != s[b].p1 || s[a].p2 != s[b].p2
      {
        if a >= |f| {
          assert s[a] == last[a - |f|] && s[b] == last[b - |f|];
        } else if b >= |f| {
          assert s[b] == last[b - |f|];
        }
      }
      forall a | 0 <= a < |s|
        ensures base <= s[a].p1 < base + |ss| * w
      {
        if a >= |f| {
          assert s[a] == last[a - |f|];
        }
      }
    }
  }

  /** The constructor joins no pair of particles twice. */
  lemma GridSpringsDistinct(rows: nat, cols: nat, pos: seq<Vec3>, length: Vec3 -> real)
    requires IsLengthFn(length) && |pos| == rows * cols
    ensures PairsDistinct(GridSprings(rows, cols, pos, length))
  {
    var grid := GridRows(rows, cols, pos, length);
    forall y | 0 <= y < rows
      ensures PairsDistinct(grid[y]) && StartsWithin(grid[y], 0 + y * cols, 0 + y * cols + cols)
    {
      var cells := RowCells(rows, cols, y, pos, length);
      forall x | 0 <= x < cols
        ensures PairsDistinct(cells[x]) && StartsWithin(cells[x], y * cols + x * 1, y * cols + x * 1 + 1)
      {
        RulesDistinct(rows, cols, x, y, 6, pos, length);
      }
      FlattenPairsDistinct(cells, y * cols, 1);
    }
    FlattenPairsDistinct(grid, 0, cols);
  }

  /** When no two particles share a position, every spring has a positive
      rest length, so the stretch ratio of applyForces is defined. */
  lemma BuiltOnPositive(springs: seq<Spring>, pos: seq<Vec3>, length: Vec3 -> real)
    requires IsLengthFn(length) && BuiltOn(springs, pos, length)
    requires forall a, b :: 0 <= a < b < |pos| ==> pos[a] != pos[b]
    ensures forall k :: 0 <= k < |springs| ==> 0.0 < springs[k].restLength
  {
    forall k | 0 <= k < |springs|
      ensures 0.0 < springs[k].restLength
    {
      var a, b := pos[springs[k].p1], pos[springs[k].p2];
      LengthZero(length, Sub(a, b));
      SubZero(a, b);
    }
  }

  /** How many springs the particle of column x, row y makes: one for each
      rule whose neighbour is on the grid. */
  function CellCount(rows: nat, cols: nat, x: nat, y: nat): nat {
    (if x + 1 < cols then 1 else 0) + (if y + 1 < rows then 1 else 0)
    + (if x + 1 < cols && y + 1 < rows then 1 else 0) + (if 0 < x && y + 1 < rows then 1 else 0)
    + (if x + 2 < cols then 1 else 0) + (if y + 2 < rows then 1 else 0)
  }

  lemma CellSpringsCount(rows: nat, cols: nat, x: nat, y: nat, pos: seq<Vec3>, length: Vec3 -> real)
    requires IsLengthFn(length) && |pos| == rows * cols && x < cols && y < rows
    ensures |CellSprings(rows, cols, x, y, pos, length)| == CellCount(rows, cols, x, y)
  {
    CellSpringsRules(rows, cols, x, y, pos, length);
  }

  /** How many springs the particles of the first y rows make. */
  function RowsTotal(rows: nat, cols: nat, y: nat): nat {
    y * (Pos(cols - 1) + Pos(cols - 2)) + Below(y, rows - 1) * (cols + 2 * Pos(cols - 1))
    + Below(y, rows - 2) * cols
  }

  /** How many springs the first x particles of row y make. */
  function RowTotal(rows: nat, cols: nat, y: nat, x: nat): nat {
    Below(x, cols - 1) + Below(x, cols - 2)
    + (if y + 1 < rows then x + Below(x, cols - 1) + Pos(x - 1) else 0)
    + (if y + 2 < rows then x else 0)
  }

  /** How many springs the first x particles of row y make. */
  lemma {:induction false} RowPrefixCount(rows: nat, cols: nat, y: nat, x: nat, pos: seq<Vec3>, length: Vec3 -> real)
    requires IsLengthFn(length) && |pos| == rows * cols && y < rows && x <= cols
    ensures |Flatten(RowCells(rows, cols, y, pos, length)[..x])| == RowTotal(rows, cols, y, x)
  {
    var cells := RowCells(rows, cols, y, pos, length);
    if x > 0 {
      RowPrefixCount(rows, cols, y, x - 1, pos, length);
      FlattenGrows(cells, x - 1);
      CellSpringsCount(rows, cols, x - 1, y, pos, length);
      RowTotalStep(rows, cols, y, x);
    } else {
      assert cells[..0] == [];
    }
  }

  lemma RowCount(rows: nat, cols: nat, y: nat, pos: seq<Vec3>, length: Vec3 -> real)
    requires IsLengthFn(length) && |pos| == rows * cols && y < rows
    ensures |RowSprings(rows, cols, y, pos, length)| == RowTotal(rows, cols, y, cols)
  {
    var cells := RowCells(rows, cols, y, pos, length);
    RowPrefixCount(rows, cols, y, cols, pos, length);
    assert cells[..cols] == cells;
  }

  /** How many springs the first y rows make. */
  lemma {:induction false} RowsPrefixCount(rows: nat, cols: nat, y: nat, pos: seq<Vec3>, length: Vec3 -> real)
    requires IsLengthFn(length) && |pos| == rows * cols && y <= rows
    ensures |Flatten(GridRows(rows, cols, pos, length)[..y])| == RowsTotal(rows, cols, y)
  {
    var grid := GridRows(rows, cols, pos, length);
    if y > 0 {
      RowsPrefixCount(rows, cols, y - 1, pos, length);
      FlattenGrows(grid, y - 1);
      RowCount(rows, cols, y - 1, pos, length);
      RowsCountStep(rows, cols, y - 1);
    } else {
      assert grid[..0] == [];
    }
  }

  lemma RowTotalStep(rows: nat, cols: nat, y: nat, x: nat)
    requires 0 < x <= cols
    ensures RowTotal(rows, cols, y, x) == RowTotal(rows, cols, y, x - 1) + CellCount(rows, cols, x - 1, y)
  {
  }

  /** The arithmetic of one more row. */
  lemma RowsCountStep(rows: nat, cols: nat, m: nat)
    requires m < rows
    ensures RowsTotal(rows, cols, m) + RowTotal(rows, cols, m, cols) == RowsTotal(rows, cols, m + 1)
  {
    MulSucc(m, Pos(cols - 1) + Pos(cols - 2));
    MulSucc(Below(m, rows - 1), cols + 2 * Pos(cols - 1));
    MulSucc(Below(m, rows - 2), cols);
  }

  /** The spring count of a rows x cols grid: structural rows(cols-1) +
      cols(rows-1), shear 2(rows-1)(cols-1), bend rows(cols-2) + cols(rows-2),
      each term zero when the grid is too small for it. */
  function SpringCount(rows: nat, cols: nat): nat {
    rows * Pos(cols - 1) + cols * Pos(rows - 1)
    + 2 * Pos(rows - 1) * Pos(cols - 1)
    + rows * Pos(cols - 2) + cols * Pos(rows - 2)
  }

  lemma GridSpringCount(rows: nat, cols: nat, pos: seq<Vec3>, length: Vec3 -> real)
    requires IsLengthFn(length) && |pos| == rows * cols
    ensures |GridSprings(rows, cols, pos, length)| == SpringCount(rows, cols)
  {
    var grid := GridRows(rows, cols, pos, length);
    RowsPrefixCount(rows, cols, rows, pos, length);
    assert grid[..rows] == grid;
    var p, q, p2, q2 := Pos(rows - 1), Pos(cols - 1), Pos(rows - 2), Pos(cols - 2);
    assert Below(rows, rows - 1) == p;
    assert Below(rows, rows - 2) == p2;
    CountAlgebra(rows, cols, p, q, p2, q2);
  }

  lemma CountAlgebra(rows: int, cols: int, p: int, q: int, p2: int, q2: int)
    ensures rows * (q + q2) + p * (cols + 2 * q) + p2 * cols
         == rows * q + cols * p + 2 * p * q + rows * q2 + cols * p2
  {
    MulAdd(rows, q, q2);
    MulAdd(p, cols, 2 * q);
    assert p * (2 * q) == 2 * p * q;
  }

  /** The 30 x 40 cloth has 6852 springs. */
  lemma ClothSpringCount(pos: seq<Vec3>, length: Vec3 -> real)
    requires IsLengthFn(length) && |pos| == Rows * Cols
    ensures |GridSprings(Rows, Cols, pos, length)| == 6852
  {
    GridSpringCount(Rows, Cols, pos, length);
    assert Pos(Cols - 1) == 39 && Pos(Cols - 2) == 38 && Pos(Rows - 1) == 29 && Pos(Rows - 2) == 28;
  }

  /** A 2 x 2 patch has six springs: four structural, two shear, no bend. */
  lemma PatchSpringCount(pos: seq<Vec3>, length: Vec3 -> real)
    requires IsLengthFn(length) && |pos| == 4
    ensures |GridSprings(2, 2, pos, length)| == 6
  {
    GridSpringCount(2, 2, pos, length);
  }

  /** One `emplace_back` of the constructor's spring loop: the spring rule r
      makes at the particle of column x, row y, if its neighbour is on the
      grid. */
  method MakeRuleSpring(rows: nat, cols: nat, x: nat, y: nat, r: nat, pos: seq<Vec3>, length: Vec3 -> real)
    returns (one: seq<Spring>)
    requires IsLengthFn(length) && |pos| == rows * cols && x < cols && y < rows
    ensures one == Rule(rows, cols, x, y, r, pos, length)
  {
    CellBounds(rows, cols, x, y);
    var idx := y * cols + x;
    one := [];
    if r == 0 {
      if x + 1 < cols {
        one := [NewSpring(idx, idx + 1, pos[idx], pos[idx + 1], StructuralStiffness, StructuralDamping, length)];
      }
    } else if r == 1 {
      if y + 1 < rows {
        one := [NewSpring(idx, idx + cols, pos[idx], pos[idx + cols], StructuralStiffness, StructuralDamping, length)];
      }
    } else if r == 2 {
      if x + 1 < cols && y + 1 < rows {
        one := [NewSpring(idx, idx + cols + 1, pos[idx], pos[idx + cols + 1], ShearStiffness, ShearDamping, length)];
      }
    } else if r == 3 {
      if 0 < x && y + 1 < rows {
        one := [NewSpring(idx, idx + cols - 1, pos[idx], pos[idx + cols - 1], ShearStiffness, ShearDamping, length)];
      }
    } else if r == 4 {
      if x + 2 < cols {
        one := [NewSpring(idx, idx + 2, pos[idx], pos[idx + 2], BendStiffness, BendDamping, length)];
      }
    } else if r == 5 {
      if y + 2 < rows {
        one := [NewSpring(idx, idx + 2 * cols, pos[idx], pos[idx + 2 * cols], BendStiffness, BendDamping, length)];
      }
    }
  }

  /** The springs one particle makes: the six rules in order. */
  method MakeCellSprings(rows: nat, cols: nat, x: nat, y: nat, pos: seq<Vec3>, length: Vec3 -> real)
    returns (made: seq<Spring>)
    requires IsLengthFn(length) && |pos| == rows * cols && x < cols && y < rows
    ensures made == CellSprings(rows, cols, x, y, pos, length)
  {
    made := [];
    for r := 0 to 6
      invariant made == Rules(rows, cols, x, y, r, pos, length)
    {
      var one := MakeRuleSpring(rows, cols, x, y, r, pos, length);
      made := made + one;
    }
  }

  /** The constructor's spring loop (src/simulation.cpp:55-83): the springs
      of each particle in turn, row by row. */
  method BuildSprings(rows: nat, cols: nat, pos: seq<Vec3>, length: Vec3 -> real)
    returns (springs: seq<Spring>)
    requires IsLengthFn(length) && |pos| == rows * cols
    ensures springs == GridSprings(rows, cols, pos, length)
  {
    ghost var grid := GridRows(rows, cols, pos, length);
    springs := [];
    var y := 0;
    while y < rows
      invariant y <= rows
      invariant springs == Flatten(grid[..y])
    {
      var row := BuildRowSprings(rows, cols, y, pos, length);
      FlattenGrows(grid, y);
      springs := springs + row;
      y := y + 1;
    }
    assert grid[..rows] == grid;
  }

  /** The inner loop of the constructor's spring loop: row y, particle by
      particle. */
  method BuildRowSprings(rows: nat, cols: nat, y: nat, pos: seq<Vec3>, length: Vec3 -> real)
    returns (row: seq<Spring>)
    requires IsLengthFn(length) && |pos| == rows * cols && y < rows
    ensures row == RowSprings(rows, cols, y, pos, length)
  {
    ghost var cells := RowCells(rows, cols, y, pos, length);
    row := [];
    var x := 0;
    while x < cols
      invariant x <= cols
      invariant row == Flatten(cells[..x])
    {
      var made := MakeCellSprings(rows, cols, x, y, pos, length);
      FlattenGrows(cells, x);
      row := row + made;
      x := x + 1;
    }
    assert cells[..cols] == cells;
  }

  /** The two triangles of the quad whose top-left corner is column x, row
      y: (top-left, bottom-left, top-right), then (top-right, bottom-left,
      bottom-right). */
  function QuadIndices(cols: nat, x: nat, y: nat): seq<nat> {
    var topLeft := y * cols + x;
    var topRight := y * cols + (x + 1);
    var bottomLeft := (y + 1) * cols + x;
    var bottomRight := (y + 1) * cols + (x + 1);
    [topLeft, bottomLeft, topRight, topRight, bottomLeft, bottomRight]
  }

  lemma DivModOf(q: nat, w: nat, r: nat)
    requires r < w
    ensures (q * w + r) / w == q && (q * w + r) % w == r
  {
    var n := q * w + r;
    var a, b := n / w, n % w;
    assert n == a * w + b && 0 <= b < w;
    MulMonoIf(a + 1, q, w);
    MulSucc(a, w);
    MulMonoIf(q + 1, a, w);
    MulSucc(q, w);
  }

  /** A quotient below n * w has a quotient by w below n. */
  lemma DivBelow(q: nat, w: nat, n: nat)
    requires 0 < w && q < n * w
    ensures q / w < n
  {
    MulMonoIf(n, q / w, w);
  }

  /** Entry i of the index list: corner i % 6 of quad i / 6, the quads
      taken row by row, cols - 1 of them to a row. */
  function MeshIndex(cols: nat, i: nat): nat {
    var w := Pos(cols - 1);
    if w == 0 then 0
    else
      var q := i / 6;
      QuadIndices(cols, q % w, q / w)[i % 6]
  }

  /** The index list of the cloth (and of the flag, built the same way). */
  function MeshIndices(rows: nat, cols: nat): seq<nat> {
    seq(6 * (Pos(rows - 1) * Pos(cols - 1)), i requires 0 <= i => MeshIndex(cols, i))
  }

  /** Corner c of the quad at column x, row y is entry 6(y(cols-1) + x) + c. */
  lemma MeshIndexOfQuad(cols: nat, x: nat, y: nat, c: nat)
    requires x + 1 < cols && c < 6
    ensures MeshIndex(cols, 6 * (y * (cols - 1) + x) + c) == QuadIndices(cols, x, y)[c]
  {
    var w := cols - 1;
    var q := y * w + x;
    DivModOf(q, 6, c);
    assert (6 * q + c) / 6 == q && (6 * q + c) % 6 == c;
    DivModOf(y, w, x);
  }

  /** Two triangles, six indices, per quad: 6(rows-1)(cols-1) in all; quad
      (x, y) takes the six places from 6(y(cols-1) + x), in the order
      top-left, bottom-left, top-right, top-right, bottom-left, bottom-right. */
  lemma MeshLayout(rows: nat, cols: nat, x: nat, y: nat)
    requires x + 1 < cols && y + 1 < rows
    ensures |MeshIndices(rows, cols)| == 6 * (rows - 1) * (cols - 1)
    ensures 6 * (y * (cols - 1) + x) + 6 <= |MeshIndices(rows, cols)|
    ensures MeshIndices(rows, cols)[6 * (y * (cols - 1) + x) .. 6 * (y * (cols - 1) + x) + 6]
         == QuadIndices(cols, x, y)
  {
    QuadFits(rows, cols, x, y);
    QuadEntries(rows, cols, x, y);
    SliceOfSix(MeshIndices(rows, cols), 6 * (y * (cols - 1) + x), QuadIndices(cols, x, y));
  }

  /** The six entries of quad (x, y), one by one. */
  lemma QuadEntries(rows: nat, cols: nat, x: nat, y: nat)
    requires x + 1 < cols && y + 1 < rows
    ensures 6 * (y * (cols - 1) + x) + 6 <= |MeshIndices(rows, cols)|
    ensures forall c :: 0 <= c < 6 ==>
      MeshIndices(rows, cols)[6 * (y * (cols - 1) + x) + c] == QuadIndices(cols, x, y)[c]
  {
    QuadFits(rows, cols, x, y);
    forall c | 0 <= c < 6
      ensures MeshIndices(rows, cols)[6 * (y * (cols - 1) + x) + c] == QuadIndices(cols, x, y)[c]
    {
      MeshEntry(rows, cols, x, y, c);
    }
  }

  lemma SliceOfSix(m: seq<nat>, i: nat, quad: seq<nat>)
    requires i + 6 <= |m| && |quad| == 6
    requires forall c :: 0 <= c < 6 ==> m[i + c] == quad[c]
    ensures m[i .. i + 6] == quad
  {
    var slice := m[i .. i + 6];
    assert forall c :: 0 <= c < 6 ==> slice[c] == quad[c];
  }

  /** Quad (x, y) is among the (rows-1)(cols-1) quads of the mesh. */
  lemma QuadFits(rows: nat, cols: nat, x: nat, y: nat)
    requires x + 1 < cols && y + 1 < rows
    ensures |MeshIndices(rows, cols)| == 6 * (rows - 1) * (cols - 1)
    ensures 6 * (y * (cols - 1) + x) + 6 <= |MeshIndices(rows, cols)|
  {
    var w, h := cols - 1, rows - 1;
    MulSucc(y, w);
    MulMono(y + 1, h, w);
    assert Pos(cols - 1) == w && Pos(rows - 1) == h;
  }

  lemma MeshEntry(rows: nat, cols: nat, x: nat, y: nat, c: nat)
    requires x + 1 < cols && y + 1 < rows && c < 6
    ensures 6 * (y * (cols - 1) + x) + c < |MeshIndices(rows, cols)|
    ensures MeshIndices(rows, cols)[6 * (y * (cols - 1) + x) + c] == QuadIndices(cols, x, y)[c]
  {
    var w: nat := cols - 1;
    var q: nat := y * w + x;
    var i: nat := 6 * q + c;
    QuadFits(rows, cols, x, y);
    assert i < |MeshIndices(rows, cols)|;
    MeshIndexOfQuad(cols, x, y, c);
    assert MeshIndex(cols, i) == QuadIndices(cols, x, y)[c];
    MeshAt(rows, cols, i);
  }

  lemma MeshAt(rows: nat, cols: nat, i: nat)
    requires i < |MeshIndices(rows, cols)|
    ensures MeshIndices(rows, cols)[i] == MeshIndex(cols, i)
  {
  }

  predicate IndicesWithin(indices: seq<nat>, n: nat) {
    forall k :: 0 <= k < |indices| ==> indices[k] < n
  }

  lemma QuadWithin(rows: nat, cols: nat, x: nat, y: nat)
    requires x + 1 < cols && y + 1 < rows
    ensures IndicesWithin(QuadIndices(cols, x, y), rows * cols)
  {
    MulSucc(y, cols);
    MulSucc(y + 1, cols);
    MulMono(y + 2, rows, cols);
  }

  /** Every index of the mesh names a particle of the grid. */
  lemma MeshIndicesWithin(rows: nat, cols: nat)
    ensures IndicesWithin(MeshIndices(rows, cols), rows * cols)
  {
    var m := MeshIndices(rows, cols);
    var w, h := Pos(cols - 1), Pos(rows - 1);
    forall i | 0 <= i < |m|
      ensures m[i] < rows * cols
    {
      var q := i / 6;
      assert q < h * w;
      DivBelow(q, w, h);
      QuadWithin(rows, cols, q % w, q / w);
      assert QuadIndices(cols, q % w, q / w)[i % 6] in QuadIndices(cols, q % w, q / w);
    }
  }

  /** The mesh list grows by whole quads: after the quads before (x, y)
      come the six corners of (x, y). */
  lemma QuadAppended(prefix: seq<nat>, cols: nat, x: nat, y: nat)
    requires x + 1 < cols && |prefix| == 6 * (y * (cols - 1) + x)
    requires forall i :: 0 <= i < |prefix| ==> prefix[i] == MeshIndex(cols, i)
    ensures forall i :: 0 <= i < |prefix| + 6 ==> (prefix + QuadIndices(cols, x, y))[i] == MeshIndex(cols, i)
  {
    forall i | 0 <= i < |prefix| + 6
      ensures (prefix + QuadIndices(cols, x, y))[i] == MeshIndex(cols, i)
    {
      if |prefix| <= i {
        MeshIndexOfQuad(cols, x, y, i - |prefix|);
      }
    }
  }

  /** The constructor's index loop (src/simulation.cpp:106-121, repeated for
      the flag at 124-139). */
  method BuildMeshIndices(rows: nat, cols: nat) returns (indices: seq<nat>)
    ensures indices == MeshIndices(rows, cols)
  {
    ghost var w, h := Pos(cols - 1), Pos(rows - 1);
    indices := [];
    var y := 0;
    while y + 1 < rows
      invariant y <= h && |indices| == 6 * (y * w)
      invariant forall i :: 0 <= i < |indices| ==> indices[i] == MeshIndex(cols, i)
    {
      var x := 0;
      while x + 1 < cols
        invariant x <= w && |indices| == 6 * (y * w + x)
        invariant forall i :: 0 <= i < |indices| ==> indices[i] == MeshIndex(cols, i)
      {
        var topLeft := y * cols + x;
        var topRight := y * cols + (x + 1);
        var bottomLeft := (y + 1) * cols + x;
        var bottomRight := (y + 1) * cols + (x + 1);
        ghost var prefix := indices;
        indices := indices + [topLeft, bottomLeft, topRight];
        indices := indices + [topRight, bottomLeft, bottomRight];
        assert indices == prefix + QuadIndices(cols, x, y);
        QuadAppended(prefix, cols, x, y);
        x := x + 1;
      }
      MulSucc(y, w);
      y := y + 1;
    }
    assert forall i :: 0 <= i < |indices| ==> indices[i] == MeshIndices(rows, cols)[i];
  }
}
