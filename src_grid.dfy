/** The Grid class of src/grid.py: a column-major matrix of 0/1 cells with a
    dimension guard, the neighbour rule, a bounds-checked toggle, a clear-all
    and a text renderer. */
module SrcGrid {
  import opened Outcomes
  import opened Cells
  import Render

  /** The constructor's guard: it raises only when BOTH dimensions are below 1,
      so `Grid(0, 3)` and `Grid(-1, 5)` are built (with no columns). */
  predicate Rejects(col: int, row: int) {
    col < 1 && row < 1
  }

  class Grid {
    var numCols: int
    var numRows: int
    /** `_grid[c][r]`: column `c`, row `r`. */
    var grid: seq<seq<Bit>>

    ghost predicate Valid()
      reads this
    {
      Shaped(grid, numCols, numRows)
    }

    /** `Grid(col, row)` for dimensions the guard lets through: the dimensions
        are kept as given and every cell starts at 0. The source first fills
        `_grid` with one placeholder 0 per column; the model uses an empty
        column as that placeholder, and the loop replaces each one. */
    constructor (col: int := 5, row: int := 8)
      requires !Rejects(col, row)
      ensures Valid() && numCols == col && numRows == row
      ensures |grid| == RangeLen(col) && forall c :: 0 <= c < |grid| ==> |grid[c]| == RangeLen(row)
      ensures AllOff(grid)
    {
      numCols := col;
      numRows := row;
      grid := seq(RangeLen(col), _ => []);
      new;
      var c := 0;
      while c < col
        invariant 0 <= c <= RangeLen(col)
        invariant numCols == col && numRows == row
        invariant |grid| == RangeLen(col)
        invariant forall k :: 0 <= k < c ==> |grid[k]| == RangeLen(row)
        invariant forall k :: c <= k < |grid| ==> grid[k] == []
        invariant AllOff(grid)
      {
        grid := grid[c := seq(RangeLen(row), _ => 0)];
        c := c + 1;
      }
    }

    /** `Grid(col, row)` including the guard: a dimension error exactly when
        both dimensions are below 1, otherwise a fresh all-zero grid. */
    static method Create(col: int, row: int) returns (result: Result<Grid>)
      ensures result.Err? <==> Rejects(col, row)
      ensures result.Err? ==> result.error == DimensionError
      ensures result.Ok? ==> fresh(result.value) && result.value.Valid() && AllOff(result.value.grid)
      ensures result.Ok? ==> result.value.numCols == col && result.value.numRows == row
    {
      if col < 1 && row < 1 {
        return Err(DimensionError);
      }
      var g := new Grid(col, row);
      return Ok(g);
    }

    /** `_adjacent_cells_coords`: the left, right, top and bottom neighbours
        that pass their edge test, appended in that order. */
    method AdjacentCellsCoords(col: int, row: int) returns (cells: seq<Coord>)
      ensures cells == Adjacent(numCols, numRows, col, row)
      ensures InBounds(numCols, numRows, col, row) ==>
        forall p :: p in cells <==> InBounds(numCols, numRows, p.0, p.1) && Orthogonal(p, (col, row))
    {
      cells := [];
      // left
      if 0 <= col - 1 {
        cells := cells + [(col - 1, row)];
      }
      // right
      if col + 1 <= numCols - 1 {
        cells := cells + [(col + 1, row)];
      }
      // top
      if row - 1 >= 0 {
        cells := cells + [(col, row - 1)];
      }
      // bottom
      if row + 1 <= numRows - 1 {
        cells := cells + [(col, row + 1)];
      }
      forall p | InBounds(numCols, numRows, col, row)
        ensures p in cells <==> InBounds(numCols, numRows, p.0, p.1) && Orthogonal(p, (col, row))
      {
        AdjacentExactly(numCols, numRows, col, row, p);
      }
    }

    /** `_reset_grid` as its documentation states it: every cell set to 0,
        dimensions and shape unchanged. (The source body writes through
        `self.grid` instead of `self._grid`; see `ResetGridAsWritten`.) */
    method ResetGrid()
      requires Valid()
      modifies this
      ensures Valid() && numCols == old(numCols) && numRows == old(numRows)
      ensures AllOff(grid)
    {
      var col := 0;
      while col < numCols
        invariant 0 <= col <= RangeLen(numCols)
        invariant Valid() && numCols == old(numCols) && numRows == old(numRows)
        invariant forall c, r :: 0 <= c < col && 0 <= r < |grid[c]| ==> grid[c][r] == 0
      {
        var row := 0;
        while row < numRows
          invariant 0 <= row <= RangeLen(numRows)
          invariant Valid() && numCols == old(numCols) && numRows == old(numRows)
          invariant forall c, r :: 0 <= c < col && 0 <= r < |grid[c]| ==> grid[c][r] == 0
          invariant forall r :: 0 <= r < row ==> grid[col][r] == 0
        {
          var column: seq<Bit> := grid[col][row := 0];
          grid := grid[col := column];
          row := row + 1;
        }
        col := col + 1;
      }
    }

    /** `_reset_grid` as written: the first cell write looks up `self.grid`,
        which no Grid has, and raises AttributeError. So it raises exactly
        when the grid has at least one cell, and never changes a cell. */
    method ResetGridAsWritten() returns (outcome: Outcome)
      requires Valid()
      ensures outcome.Fail? <==> |grid| > 0 && |grid[0]| > 0
      ensures outcome.Fail? ==> outcome.error == MissingAttribute
    {
      var col := 0;
      while col < numCols
        invariant 0 <= col <= RangeLen(numCols)
        invariant col > 0 ==> numRows < 1
      {
        var row := 0;
        if row < numRows {
          return Fail(MissingAttribute);
        }
        col := col + 1;
      }
      return Pass;
    }

    /** `toggle_cell` as written: IndexError exactly when the coordinate names
        no cell of the grid; otherwise it returns without changing anything
        (no cell is flipped, unlike its documentation; see `ToggleCellDocumented`). */
    method ToggleCell(col: int, row: int) returns (outcome: Outcome)
      requires Valid()
      ensures outcome.Fail? <==> !(0 <= col < |grid| && 0 <= row < |grid[col]|)
      ensures outcome.Fail? ==> outcome.error == IndexError
    {
      InBoundsIffCell(grid, numCols, numRows, col, row);
      if (col < 0 || col > numCols - 1) || (row < 0 || row > numRows - 1) {
        return Fail(IndexError);
      }
      return Pass;
    }

    /** `toggle_cell` as its documentation states it: after the same bounds
        check, the cell and each cell `_adjacent_cells_coords` lists flip
        between 0 and 1; every other cell, and every cell on an error, is unchanged. */
    method ToggleCellDocumented(col: int, row: int) returns (outcome: Outcome)
      requires Valid()
      modifies this
      ensures Valid() && numCols == old(numCols) && numRows == old(numRows)
      ensures outcome.Fail? <==> !(0 <= col < |old(grid)| && 0 <= row < |old(grid)[col]|)
      ensures outcome.Fail? ==> outcome.error == IndexError && grid == old(grid)
      ensures outcome.Pass? ==> grid == FlipSet(old(grid), ToggleGroup(numCols, numRows, col, row))
    {
      InBoundsIffCell(grid, numCols, numRows, col, row);
      if (col < 0 || col > numCols - 1) || (row < 0 || row > numRows - 1) {
        return Fail(IndexError);
      }
      var neighbours := AdjacentCellsCoords(col, row);
      AdjacentDistinct(numCols, numRows, col, row);
      ghost var start := grid;
      FlipFirst(start, (col, row), neighbours);
      grid := FlipAt(grid, (col, row));
      var i := 0;
      while i < |neighbours|
        invariant 0 <= i <= |neighbours|
        invariant numCols == old(numCols) && numRows == old(numRows)
        invariant grid == FlipSet(start, {(col, row)} + Members(neighbours[..i]))
      {
        var p := neighbours[i];
        AdjacentExactly(numCols, numRows, col, row, p);
        InBoundsIffCell(start, numCols, numRows, p.0, p.1);
        FlipNext(start, (col, row), neighbours, i);
        grid := FlipAt(grid, p);
        i := i + 1;
      }
      assert neighbours[..i] == neighbours;
      FlipSetShaped(start, ToggleGroup(numCols, numRows, col, row), numCols, numRows);
      return Pass;
    }

    /** `__repr__`: the labelled text of the grid; it changes nothing. */
    method Repr() returns (text: string)
      requires Valid()
      ensures text == Render.Rendering(grid, numCols, numRows)
      ensures Render.CountNewlines(text) == RangeLen(numRows) + 2
    {
      text := Render.BuildRepr(grid, numCols, numRows);
      Render.RenderingLineCount(grid, numCols, numRows);
    }
  }

  /** On a 3x3 grid, `_reset_grid` raises instead of clearing. */
  method ResetTypoExample() returns (outcome: Outcome)
    ensures outcome == Fail(MissingAttribute)
  {
    var g := new Grid(3, 3);
    outcome := g.ResetGridAsWritten();
  }
}
