# Lights Out grid — a verified Dafny model

This project models the `Grid` class of the command-line Lights Out game
in two revisions. The later one is `src/grid.py`. The earlier one is
`grid.py` at the repository root.

A grid holds a column-major matrix `_grid[c][r]` of 0/1 cells, together with
its dimensions `_num_cols` and `_num_rows`. The later revision provides:

- a dimension guard in the constructor;
- the orthogonal-neighbour rule (`_adjacent_cells_coords`);
- a bounds-checked `toggle_cell`;
- a clear-all (`_reset_grid`);
- a text renderer (`__repr__`).

The earlier revision has only the constructor, with a different guard, and
the same renderer.

Modules:

- `Outcomes`: the exceptions the class raises, as values (`Outcome`, `Result`).
- `Decimal`: Python's `str()` on the natural numbers the renderer prints, with
  its inverse.
- `Cells`: the matrix shape, the bounds test, the neighbour list, and the flip
  of a toggle group, as pure functions with lemmas.
- `Render`: the layout of the rendered text as pure functions. It also holds
  the `+=` accumulation loops of `__repr__`, proved to produce that layout.
  The loop code is identical in both revisions.
- `SrcGrid`: `class Grid` of `src/grid.py`. Its fields are `numCols`,
  `numRows` and `grid`, a `seq<seq<Bit>>` that its methods reassign.
- `RootGrid`: `class Grid` of the root `grid.py`.

The model follows the code as written:

- Both guards join their two tests with `and`. `src/grid.py` refuses a
  grid only when both dimensions are below 1. The root `grid.py` refuses
  it only when both are at most 1, so it refuses 1x1.
- A dimension that is zero or negative gives Python's `range` nothing to
  iterate. `Grid(0, 3)` and `Grid(-1, 5)` are therefore built, with no
  columns. `RangeLen` models that count.
- `toggle_cell` only checks bounds. Its documented flip is modelled
  separately as `ToggleCellDocumented`.
- `_reset_grid` writes to `self.grid`, an attribute no Grid has. Its
  documented effect is `ResetGrid`. The code as written is
  `ResetGridAsWritten` (see Findings).
- The repository's tests and design description also name a puzzle engine:
  cells starting lit, each dimension below 1 refused on its own, puzzle
  generation, solution tracking and undo. The code of these files does
  none of that. Where the two disagree, the model follows the code.

Dafny constructors cannot fail. So each `Grid` constructor requires that the
guard passes, and a static `Create` models the whole call `Grid(col, row)`:
it returns the dimension error exactly when the guard raises. The Python
defaults `col=5, row=8` are the constructors' default parameter values.

## Model

| member | source | states |
|---|---|---|
| `SrcGrid.Grid.Create` | src/grid.py:3-13 | Fails with a dimension error iff both `col < 1` and `row < 1`; otherwise returns a fresh grid with the given dimensions, shaped and all 0 |
| `SrcGrid.Grid.constructor` | src/grid.py:7-13 | Keeps the dimensions as given; the matrix has one column per value of `range(col)`, each with one entry per value of `range(row)`, all 0 |
| `SrcGrid.Grid.AdjacentCellsCoords` | src/grid.py:18-34 | Returns the neighbour list; for an in-bounds cell, a coordinate is in it iff it is in bounds and differs from the cell by 1 in exactly one coordinate |
| `Cells.Adjacent` | src/grid.py:18-34 | At most four entries, each differing from the anchor by 1 in exactly one coordinate |
| `Cells.AdjacentMembers` | src/grid.py:21-32 | For any anchor, a coordinate is listed iff it is an orthogonal neighbour that does not step past the grid edge in the direction it moves |
| `Cells.AdjacentExactly` | src/grid.py:15-34 | For an in-bounds anchor, the list holds exactly the in-bounds orthogonal neighbours |
| `Cells.AdjacentDistinct` | src/grid.py:18-34 | The list has no duplicates and never holds the anchor |
| `Cells.AdjacentCount` | src/grid.py:18-34 | For an in-bounds cell, the neighbour count plus the number of grid edges the cell lies on is 4: 4 inside, 3 on an edge, 2 in a corner, none on a 1x1 grid |
| `Cells.AdjacentExamples` | src/test_grid.py:35-118 | The nine 3x3 cases and the 1x1 case the unit test checks |
| `Cells.InBoundsIffCell` | src/grid.py:44 | On a shaped matrix, the bounds test passes iff the coordinate names an existing cell |
| `SrcGrid.Grid.ToggleCell` | src/grid.py:43-45 | As written: IndexError iff the coordinate names no cell of the grid; no cell changes either way |
| `SrcGrid.Grid.ToggleCellDocumented` | src/grid.py:42-45 | As documented: on IndexError nothing changes; otherwise the cell and its listed neighbours flip between 0 and 1 and all other cells and the dimensions are unchanged |
| `Cells.ToggleGroupExactly` | src/grid.py:42 | For an in-bounds anchor, the flipped coordinates are the in-bounds ones at Manhattan distance at most 1 |
| `Cells.ToggledCellsExactly` | src/grid.py:42 | After the documented toggle, a cell differs from before iff it is at Manhattan distance at most 1 from the anchor |
| `Cells.CentreToggleGroup` | src/grid.py:42 | Toggling the 3x3 centre flips (1,1), (0,1), (2,1), (1,0) and (1,2) |
| `Cells.ToggleTwiceRestores` | src/grid.py:42 | The documented toggle applied twice at the same coordinate restores the matrix |
| `Cells.FlipSetTwice` | src/grid.py:42 | Flipping any set of cells twice restores the matrix |
| `Cells.FlipSetCommute` | src/grid.py:42 | Two flips give the same matrix in either order |
| `Cells.FlipSetCells` | src/grid.py:42 | A flip keeps the shape and changes a cell iff its coordinate is in the flipped set |
| `SrcGrid.Grid.ResetGrid` | src/grid.py:36-40 | As documented: every cell becomes 0, and the dimensions and shape are unchanged |
| `SrcGrid.Grid.ResetGridAsWritten` | src/grid.py:37-40 | As written: AttributeError iff the grid has at least one cell; no cell changes |
| `SrcGrid.ResetTypoExample` | src/grid.py:40 | On a 3x3 grid, `_reset_grid` raises AttributeError |
| `SrcGrid.Grid.Repr` | src/grid.py:49-76 | Returns the labelled rendering of the current cells, with `num_rows + 2` newlines; nothing changes |
| `Render.BuildRepr` | src/grid.py:49-76 | The `+=` loops produce the header line, the underline and each row line, each followed by a newline |
| `Render.BuildColumnLabels` | src/grid.py:50-63 | Three dashes per column cut by two characters give five spaces and `3*num_cols-2` dashes; with no column, three spaces |
| `Render.ColumnLabelsText` | src/grid.py:56-61 | The accumulated label text with its last two characters removed is the header line and the underline line |
| `Render.LabelsNoNewline` | src/grid.py:54-55 | The column labels contain no newline |
| `Render.RowCellsNoNewline` | src/grid.py:71-72 | A row's cell text contains no newline |
| `Render.LinesLayout` | src/grid.py:49-76 | Line 0 is the header, line 1 the underline, and line `r + 2` the line for row `r`; there are `num_rows + 2` lines |
| `Render.RowLinesAt` | src/grid.py:68-74 | The rows are rendered in order: the `r`-th row line is the line for row `r` |
| `Render.RenderingLineCount` | src/grid.py:49-76 | The rendering holds exactly `num_rows + 2` newlines (2 when `num_rows <= 0`) and ends with a newline |
| `Render.JoinLinesCount` | src/grid.py:68-75 | Newline-free lines, each terminated, give one newline per line |
| `Render.LinesExample` | src/grid.py:49-76 | A 2x1 grid with cells 0 and 1 gives a header of labels 0 and 1, an underline of four dashes, and one row line for row 0 listing 0 then 1 |
| `Render.RenderingExample` | src/grid.py:49-76 | The whole text for that grid |
| `Decimal.NatToStringDigits` | src/grid.py:55 | `str()` of a natural number is a non-empty string of digits, one digit iff the number is below 10, with no leading zero |
| `Decimal.DecimalRoundTrip` | src/grid.py:55 | Reading the digits back gives the number |
| `Decimal.NatToStringInjective` | src/grid.py:69 | Distinct indices print differently |
| `RootGrid.Grid.Create` | grid.py:3-13 | Fails with a dimension error iff both `col <= 1` and `row <= 1`; otherwise returns a fresh all-0 grid with the given dimensions |
| `RootGrid.Grid.constructor` | grid.py:7-13 | Keeps the dimensions as given; `_grid[c][r]` has one column per value of `range(col)`, each of `range(row)` zeros |
| `RootGrid.GuardsCompared` | grid.py:4-5 | Everything the later guard refuses, this one refuses; they differ exactly when both dimensions are at most 1 and one is 1 (1x1 refused here; `Grid(0, 5)` built) |
| `RootGrid.Grid.Repr` | grid.py:16-43 | Returns the same labelled rendering, with `num_rows + 2` newlines; nothing changes |

## Findings

| source | as written | input that shows it | evidently intended | confidence | as-written member | corrected member |
|---|---|---|---|---|---|---|
| src/grid.py:40 | the loop writes `self.grid[col][row] = 0`, but the matrix attribute is `_grid`; the first write raises AttributeError | `Grid(3, 3)._reset_grid()` | set every cell of `_grid` to 0, as the docstring at line 36 says | high (not executed) | `SrcGrid.Grid.ResetGridAsWritten` | `SrcGrid.Grid.ResetGrid` |

## Left out

- The interactive loop of `src/main.py` (`input()`, `print`, `int()` parsing) is I/O. It calls `get_solution` and `undo_last_move`, which no file defines.
- The puzzle-engine methods exercised by `src/test_grid.py` (`create_new_puzzle`, `player_toggle_cell`, `solve_puzzle`, `is_solved`, `history`, `_toggle_single_cell`, `_set_all_lights_on`) exist in neither revision. There is nothing to model for them. The same holds for random scrambling and seeds.
- Exception messages (the f-strings at src/grid.py:5 and 45 and grid.py:5) are not modelled. A failure is the error value alone.
- Python's general `str()` is not modelled. Only the decimal text of natural numbers (indices and 0/1 cells) is.
- Arguments of types other than `int` are not modelled. They would make the Python code fail in `range` or in a comparison.
- Before the loop fills it, `_grid` holds one placeholder `0` per column. The model uses an empty column as that placeholder, which no caller can observe.
- The nested Python lists are modelled as a `seq<seq<Bit>>` value that the methods reassign. The source creates each column afresh, so no two columns are aliased.
