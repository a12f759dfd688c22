/** The cell matrix of the Lights Out grid, the orthogonal-neighbour rule and
    the flip of a toggle group, as values. The matrix is column-major:
    `m[c][r]` is the cell in column `c`, row `r`. */
module Cells {

  /** A cell holds 0 (off) or 1 (on). */
  type Bit = b: int | 0 <= b <= 1

  /** A coordinate `(col, row)`; either part may be out of range or negative. */
  type Coord = (int, int)

  /** The number of values `range(n)` yields: none when `n` is zero or negative. */
  function RangeLen(n: int): nat {
    if n < 0 then 0 else n
  }

  function Abs(x: int): nat {
    if x < 0 then -x else x
  }

  /** `m` is what the constructor builds for `(numCols, numRows)`: one column
      per value of `range(numCols)`, each with one entry per value of `range(numRows)`. */
  ghost predicate Shaped(m: seq<seq<Bit>>, numCols: int, numRows: int) {
    |m| == RangeLen(numCols) && forall c :: 0 <= c < |m| ==> |m[c]| == RangeLen(numRows)
  }

  /** Every cell is 0. */
  ghost predicate AllOff(m: seq<seq<Bit>>) {
    forall c, r :: 0 <= c < |m| && 0 <= r < |m[c]| ==> m[c][r] == 0
  }

  /** The bounds test `toggle_cell` applies before doing anything. */
  predicate InBounds(numCols: int, numRows: int, col: int, row: int) {
    0 <= col <= numCols - 1 && 0 <= row <= numRows - 1
  }

  /** `p` and `q` differ by one in exactly one coordinate. */
  predicate Orthogonal(p: Coord, q: Coord) {
    Abs(p.0 - q.0) + Abs(p.1 - q.1) == 1
  }

  /** On a shaped matrix, the bounds test holds exactly when the coordinate
      names an existing cell. */
  lemma InBoundsIffCell(m: seq<seq<Bit>>, numCols: int, numRows: int, col: int, row: int)
    requires Shaped(m, numCols, numRows)
    ensures InBounds(numCols, numRows, col, row) <==> 0 <= col < |m| && 0 <= row < |m[col]|
  {
  }

  /** The list `_adjacent_cells_coords` returns: left, right, top, bottom, each
      kept when the coordinate it moves to passes the one test the source makes. */
  function Adjacent(numCols: int, numRows: int, col: int, row: int): (cells: seq<Coord>)
    ensures |cells| <= 4
    ensures forall i :: 0 <= i < |cells| ==> Orthogonal(cells[i], (col, row))
  {
    (if 0 <= col - 1 then [(col - 1, row)] else [])
    + (if col + 1 <= numCols - 1 then [(col + 1, row)] else [])
    + (if row - 1 >= 0 then [(col, row - 1)] else [])
    + (if row + 1 <= numRows - 1 then [(col, row + 1)] else [])
  }

  /** For any anchor, a coordinate is listed exactly when it is an orthogonal
      neighbour that does not step past the grid edge in the direction moved
      (the source tests only that side, so an out-of-range anchor can list
      out-of-range neighbours). */
  lemma AdjacentMembers(numCols: int, numRows: int, col: int, row: int, p: Coord)
    ensures p in Adjacent(numCols, numRows, col, row) <==>
      && Orthogonal(p, (col, row))
      && (p.0 < col ==> 0 <= p.0) && (p.0 > col ==> p.0 <= numCols - 1)
      && (p.1 < row ==> 0 <= p.1) && (p.1 > row ==> p.1 <= numRows - 1)
  {
    var s := Adjacent(numCols, numRows, col, row);
    if p in s {
      var i :| 0 <= i < |s| && s[i] == p;
      assert Orthogonal(s[i], (col, row));
    }
  }

  /** For an in-bounds anchor the list holds exactly its in-bounds orthogonal neighbours. */
  lemma AdjacentExactly(numCols: int, numRows: int, col: int, row: int, p: Coord)
    requires InBounds(numCols, numRows, col, row)
    ensures p in Adjacent(numCols, numRows, col, row) <==>
      InBounds(numCols, numRows, p.0, p.1) && Orthogonal(p, (col, row))
  {
    AdjacentMembers(numCols, numRows, col, row, p);
  }

  /** The list has no duplicates and never holds the anchor itself. */
  lemma AdjacentDistinct(numCols: int, numRows: int, col: int, row: int)
    ensures var s := Adjacent(numCols, numRows, col, row);
      (forall i, j :: 0 <= i < j < |s| ==> s[i] != s[j]) && (col, row) !in s
  {
  }

  /** How many of the four grid edges the cell lies on. */
  function EdgesTouched(numCols: int, numRows: int, col: int, row: int): nat {
    (if col == 0 then 1 else 0) + (if col == numCols - 1 then 1 else 0)
    + (if row == 0 then 1 else 0) + (if row == numRows - 1 then 1 else 0)
  }

  /** An in-bounds cell has one neighbour fewer for each edge it lies on: 4 in
      the interior, 3 on an edge, 2 in a corner, 0 on a 1x1 grid. */
  lemma AdjacentCount(numCols: int, numRows: int, col: int, row: int)
    requires InBounds(numCols, numRows, col, row)
    ensures |Adjacent(numCols, numRows, col, row)| + EdgesTouched(numCols, numRows, col, row) == 4
    ensures EdgesTouched(numCols, numRows, col, row) == 0 ==> |Adjacent(numCols, numRows, col, row)| == 4
    ensures numCols == 1 && numRows == 1 ==> Adjacent(numCols, numRows, col, row) == []
  {
  }

  /** The neighbour lists the unit tests check on a 3x3 grid (as sets there;
      here in the source's left, right, top, bottom order) and on a 1x1 grid. */
  lemma AdjacentExamples()
    ensures Adjacent(3, 3, 1, 1) == [(0, 1), (2, 1), (1, 0), (1, 2)]
    ensures Adjacent(3, 3, 0, 0) == [(1, 0), (0, 1)]
    ensures Adjacent(3, 3, 1, 0) == [(0, 0), (2, 0), (1, 1)]
    ensures Adjacent(3, 3, 2, 0) == [(1, 0), (2, 1)]
    ensures Adjacent(3, 3, 2, 1) == [(1, 1), (2, 0), (2, 2)]
    ensures Adjacent(3, 3, 2, 2) == [(1, 2), (2, 1)]
    ensures Adjacent(3, 3, 1, 2) == [(0, 2), (2, 2), (1, 1)]
    ensures Adjacent(3, 3, 0, 2) == [(1, 2), (0, 1)]
    ensures Adjacent(3, 3, 0, 1) == [(1, 1), (0, 0), (0, 2)]
    ensures Adjacent(1, 1, 0, 0) == []
  {
  }

  /** The coordinates a list holds. */
  function Members(s: seq<Coord>): set<Coord> {
    set p | p in s
  }

  lemma MembersSnoc(s: seq<Coord>, p: Coord)
    ensures Members(s + [p]) == Members(s) + {p}
  {
  }

  /** The cells one documented toggle flips: the anchor and its listed neighbours. */
  function ToggleGroup(numCols: int, numRows: int, col: int, row: int): set<Coord> {
    {(col, row)} + Members(Adjacent(numCols, numRows, col, row))
  }

  /** For an in-bounds anchor, the toggle group is the in-bounds part of the
      plus shape of Manhattan radius 1 around it. */
  lemma ToggleGroupExactly(numCols: int, numRows: int, col: int, row: int, p: Coord)
    requires InBounds(numCols, numRows, col, row)
    ensures p in ToggleGroup(numCols, numRows, col, row) <==>
      InBounds(numCols, numRows, p.0, p.1) && Abs(p.0 - col) + Abs(p.1 - row) <= 1
  {
    AdjacentExactly(numCols, numRows, col, row, p);
  }

  /** A toggle of the 3x3 centre flips the centre and its four neighbours. */
  lemma CentreToggleGroup()
    ensures ToggleGroup(3, 3, 1, 1) == {(1, 1), (0, 1), (2, 1), (1, 0), (1, 2)}
  {
    assert Members(Adjacent(3, 3, 1, 1)) == {(1, 0), (2, 1), (1, 2), (0, 1)};
  }

  function Flip(b: Bit): Bit {
    1 - b
  }

  /** `m` with the cells whose coordinates are in `s` flipped between 0 and 1. */
  function FlipSet(m: seq<seq<Bit>>, s: set<Coord>): seq<seq<Bit>> {
    seq(|m|, c requires 0 <= c < |m| => FlipColumn(m[c], c, s))
  }

  /** Column `c` of `FlipSet`. */
  function FlipColumn(column: seq<Bit>, c: int, s: set<Coord>): seq<Bit> {
    seq(|column|, r requires 0 <= r < |column| => if (c, r) in s then Flip(column[r]) else column[r])
  }

  /** `m` with the one cell at `p` flipped. */
  function FlipAt(m: seq<seq<Bit>>, p: Coord): seq<seq<Bit>>
    requires 0 <= p.0 < |m| && 0 <= p.1 < |m[p.0]|
  {
    var column: seq<Bit> := m[p.0][p.1 := Flip(m[p.0][p.1])];
    m[p.0 := column]
  }

  /** Flipping a set keeps the matrix shape; a cell changes exactly when it is in the set. */
  lemma FlipSetCells(m: seq<seq<Bit>>, s: set<Coord>, c: int, r: int)
    requires 0 <= c < |m| && 0 <= r < |m[c]|
    ensures |FlipSet(m, s)| == |m| && |FlipSet(m, s)[c]| == |m[c]|
    ensures FlipSet(m, s)[c][r] != m[c][r] <==> (c, r) in s
  {
    var f := FlipSet(m, s);
    assert f[c][r] == if (c, r) in s then Flip(m[c][r]) else m[c][r];
  }

  lemma FlipSetShaped(m: seq<seq<Bit>>, s: set<Coord>, numCols: int, numRows: int)
    requires Shaped(m, numCols, numRows)
    ensures Shaped(FlipSet(m, s), numCols, numRows)
  {
  }

  /** Flipping nothing changes nothing. */
  lemma FlipSetEmpty(m: seq<seq<Bit>>)
    ensures FlipSet(m, {}) == m
  {
    var f := FlipSet(m, {});
    assert |f| == |m|;
    forall c | 0 <= c < |m| ensures f[c] == m[c] {
      assert |f[c]| == |m[c]|;
    }
  }

  /** Flipping one more cell after a set flips the set extended by that cell. */
  lemma FlipSetAddOne(m: seq<seq<Bit>>, s: set<Coord>, p: Coord)
    requires 0 <= p.0 < |m| && 0 <= p.1 < |m[p.0]|
    requires p !in s
    ensures FlipAt(FlipSet(m, s), p) == FlipSet(m, s + {p})
  {
    var f, g := FlipAt(FlipSet(m, s), p), FlipSet(m, s + {p});
    assert |f| == |g|;
    forall c | 0 <= c < |m| ensures f[c] == g[c] {
      assert |f[c]| == |g[c]|;
    }
  }

  /** Flipping the anchor alone is flipping the anchor plus no listed neighbour. */
  lemma FlipFirst(m: seq<seq<Bit>>, anchor: Coord, ns: seq<Coord>)
    requires 0 <= anchor.0 < |m| && 0 <= anchor.1 < |m[anchor.0]|
    ensures FlipAt(m, anchor) == FlipSet(m, {anchor} + Members(ns[..0]))
  {
    FlipSetEmpty(m);
    FlipSetAddOne(m, {}, anchor);
    assert Members(ns[..0]) == {};
    assert {anchor} + Members(ns[..0]) == {} + {anchor};
  }

  /** Flipping the anchor and the first `i` listed neighbours, then neighbour
      `i`, is flipping the anchor and the first `i + 1` (the list has no
      duplicates and does not hold the anchor). */
  lemma FlipNext(m: seq<seq<Bit>>, anchor: Coord, ns: seq<Coord>, i: nat)
    requires i < |ns| && anchor !in ns
    requires forall j, k :: 0 <= j < k < |ns| ==> ns[j] != ns[k]
    requires 0 <= ns[i].0 < |m| && 0 <= ns[i].1 < |m[ns[i].0]|
    ensures FlipAt(FlipSet(m, {anchor} + Members(ns[..i])), ns[i]) == FlipSet(m, {anchor} + Members(ns[..i + 1]))
  {
    var done := {anchor} + Members(ns[..i]);
    assert ns[i] !in done by {
      assert ns[i] in ns;
    }
    FlipSetAddOne(m, done, ns[i]);
    assert ns[..i + 1] == ns[..i] + [ns[i]];
    MembersSnoc(ns[..i], ns[i]);
    assert {anchor} + Members(ns[..i + 1]) == done + {ns[i]};
  }

  /** Flipping the same set twice restores the matrix: each toggle is its own inverse. */
  lemma FlipSetTwice(m: seq<seq<Bit>>, s: set<Coord>)
    ensures FlipSet(FlipSet(m, s), s) == m
  {
    var f := FlipSet(FlipSet(m, s), s);
    assert |f| == |m|;
    forall c | 0 <= c < |m| ensures f[c] == m[c] {
      assert |f[c]| == |m[c]|;
    }
  }

  /** Flips commute: the final matrix does not depend on the order of two toggles. */
  lemma FlipSetCommute(m: seq<seq<Bit>>, s: set<Coord>, t: set<Coord>)
    ensures FlipSet(FlipSet(m, s), t) == FlipSet(FlipSet(m, t), s)
  {
    var f, g := FlipSet(FlipSet(m, s), t), FlipSet(FlipSet(m, t), s);
    assert |f| == |g|;
    forall c | 0 <= c < |m| ensures f[c] == g[c] {
      assert |f[c]| == |g[c]|;
    }
  }

  /** The documented toggle applied twice at the same coordinate restores the grid. */
  lemma ToggleTwiceRestores(m: seq<seq<Bit>>, numCols: int, numRows: int, col: int, row: int)
    ensures var g := ToggleGroup(numCols, numRows, col, row); FlipSet(FlipSet(m, g), g) == m
  {
    FlipSetTwice(m, ToggleGroup(numCols, numRows, col, row));
  }

  /** On a shaped matrix and an in-bounds anchor, the documented toggle changes
      exactly the cells at Manhattan distance at most 1 from the anchor. */
  lemma ToggledCellsExactly(m: seq<seq<Bit>>, numCols: int, numRows: int, col: int, row: int, c: int, r: int)
    requires Shaped(m, numCols, numRows) && InBounds(numCols, numRows, col, row)
    requires 0 <= c < |m| && 0 <= r < |m[c]|
    ensures FlipSet(m, ToggleGroup(numCols, numRows, col, row))[c][r] != m[c][r] <==>
      Abs(c - col) + Abs(r - row) <= 1
  {
    FlipSetCells(m, ToggleGroup(numCols, numRows, col, row), c, r);
    ToggleGroupExactly(numCols, numRows, col, row, (c, r));
  }
}
