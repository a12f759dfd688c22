/** The earlier revision of the Grid class, grid.py at the repository root:
    the same matrix and renderer, no neighbour rule, toggle or clear, and a
    stricter dimension guard. */
module RootGrid {
  import opened Outcomes
  import opened Cells
  import Render
  import SrcGrid

  /** This revision's guard: it raises when both dimensions are at most 1, so
      `Grid(1, 1)` is refused although its message asks for ">= 1", while
      `Grid(0, 5)` is built (with no columns). */
  predicate Rejects(col: int, row: int) {
    col <= 1 && row <= 1
  }

  /** The two guards differ exactly on the inputs where both dimensions are
      at most 1 and one of them is 1: those this revision refuses and the
      later one builds. Everything the later revision refuses, this one refuses. */
  lemma GuardsCompared(col: int, row: int)
    ensures SrcGrid.Rejects(col, row) ==> Rejects(col, row)
    ensures Rejects(col, row) && !SrcGrid.Rejects(col, row) <==> col <= 1 && row <= 1 && (col == 1 || row == 1)
    ensures Rejects(1, 1) && !SrcGrid.Rejects(1, 1) && !Rejects(0, 5)
  {
  }

  class Grid {
    var numCols: int
    var numRows: int
    /** `_grid[c][r]`: column `c`, row `r`. */
    var grid: seq<seq<Bit>>

    ghost predicate Valid()
      reads this
    {
      Shaped(grid, numCols, numRows)
    }

    /** `Grid(col, row)` for dimensions this revision's guard lets through:
        the dimensions are kept as given and every cell starts at 0 (the
        placeholder entries are modelled as empty columns). */
    constructor (col: int := 5, row: int := 8)
      requires !Rejects(col, row)
      ensures Valid() && numCols == col && numRows == row
      ensures |grid| == RangeLen(col) && forall c :: 0 <= c < |grid| ==> |grid[c]| == RangeLen(row)
      ensures AllOff(grid)
    {
      numCols := col;
      numRows := row;
      grid := seq(RangeLen(col), _ => []);
      new;
      var c := 0;
      while c < col
        invariant 0 <= c <= RangeLen(col)
        invariant numCols == col && numRows == row
        invariant |grid| == RangeLen(col)
        invariant forall k :: 0 <= k < c ==> |grid[k]| == RangeLen(row)
        invariant forall k :: c <= k < |grid| ==> grid[k] == []
        invariant AllOff(grid)
      {
        grid := grid[c := seq(RangeLen(row), _ => 0)];
        c := c + 1;
      }
    }

    /** `Grid(col, row)` including this revision's guard. */
    static method Create(col: int, row: int) returns (result: Result<Grid>)
      ensures result.Err? <==> Rejects(col, row)
      ensures result.Err? ==> result.error == DimensionError
      ensures result.Ok? ==> fresh(result.value) && result.value.Valid() && AllOff(result.value.grid)
      ensures result.Ok? ==> result.value.numCols == col && result.value.numRows == row
    {
      if col <= 1 && row <= 1 {
        return Err(DimensionError);
      }
      var g := new Grid(col, row);
      return Ok(g);
    }

    /** `__repr__`: the labelled text of the grid; it changes nothing. */
    method Repr() returns (text: string)
      requires Valid()
      ensures text == Render.Rendering(grid, numCols, numRows)
      ensures Render.CountNewlines(text) == RangeLen(numRows) + 2
    {
      text := Render.BuildRepr(grid, numCols, numRows);
      Render.RenderingLineCount(grid, numCols, numRows);
    }
  }
}
