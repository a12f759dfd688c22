/** The text `Grid.__repr__` produces: a line of column labels, an underline,
    then one line per row listing that row's cells in column order. The same
    renderer appears in both revisions of the Grid class. */
module Render {
  import opened Decimal
  import opened Cells

  predicate NoNewline(s: string) {
    forall i :: 0 <= i < |s| ==> s[i] != '\n'
  }

  function Dashes(n: nat): (s: string)
    ensures |s| == n
  {
    seq(n, _ => '-')
  }

  /** `"  " + str(i)` for each column `i` in `range(k)`, in order. */
  function Labels(k: nat): string {
    if k == 0 then "" else Labels(k - 1) + ("  " + NatToString(k - 1))
  }

  /** `"  " + str(m[c][r])` for the first `k` columns `c`, in order. */
  function RowCells(m: seq<seq<Bit>>, r: nat, k: nat): string
    requires k <= |m| && forall c :: 0 <= c < k ==> r < |m[c]|
  {
    if k == 0 then "" else RowCells(m, r, k - 1) + ("  " + NatToString(m[k - 1][r]))
  }

  /** First line: three spaces, then each column's label. */
  function HeaderLine(numCols: int): string {
    "   " + Labels(RangeLen(numCols))
  }

  /** Second line: five spaces and `3 * numCols - 2` dashes; on a grid without
      columns the strip of the last two characters eats two of the spaces. */
  function UnderlineLine(numCols: int): string {
    if numCols >= 1 then "     " + Dashes(3 * numCols - 2) else "   "
  }

  /** The line for row `r`: its index, `" |"`, then its cells in column order. */
  function RowLine(m: seq<seq<Bit>>, numCols: int, numRows: int, r: nat): string
    requires Shaped(m, numCols, numRows) && r < RangeLen(numRows)
  {
    NatToString(r) + " |" + RowCells(m, r, RangeLen(numCols))
  }

  /** The lines of the first `k` rows. */
  function RowLines(m: seq<seq<Bit>>, numCols: int, numRows: int, k: nat): (ls: seq<string>)
    requires Shaped(m, numCols, numRows) && k <= RangeLen(numRows)
    ensures |ls| == k
  {
    if k == 0 then [] else RowLines(m, numCols, numRows, k - 1) + [RowLine(m, numCols, numRows, k - 1)]
  }

  /** Every line of the rendering, in order, without their newlines. */
  function Lines(m: seq<seq<Bit>>, numCols: int, numRows: int): seq<string>
    requires Shaped(m, numCols, numRows)
  {
    [HeaderLine(numCols), UnderlineLine(numCols)] + RowLines(m, numCols, numRows, RangeLen(numRows))
  }

  /** Each line followed by a newline. */
  function JoinLines(ls: seq<string>): string {
    if ls == [] then "" else JoinLines(ls[..|ls| - 1]) + ls[|ls| - 1] + "\n"
  }

  /** The rendering `__repr__` returns for a grid. */
  function Rendering(m: seq<seq<Bit>>, numCols: int, numRows: int): string
    requires Shaped(m, numCols, numRows)
  {
    JoinLines(Lines(m, numCols, numRows))
  }

  function CountNewlines(s: string): nat {
    if s == [] then 0 else CountNewlines(s[..|s| - 1]) + (if s[|s| - 1] == '\n' then 1 else 0)
  }

  lemma {:induction false} CountNewlinesConcat(a: string, b: string)
    ensures CountNewlines(a + b) == CountNewlines(a) + CountNewlines(b)
  {
    if b != [] {
      assert (a + b)[..|a + b| - 1] == a + b[..|b| - 1];
      CountNewlinesConcat(a, b[..|b| - 1]);
    } else {
      assert a + b == a;
    }
  }

  lemma {:induction false} NoNewlineCount(s: string)
    requires NoNewline(s)
    ensures CountNewlines(s) == 0
  {
    if s != [] {
      NoNewlineCount(s[..|s| - 1]);
    }
  }

  /** Joining newline-free lines yields one newline per line, and the text ends
      with a newline whenever there is a line. */
  lemma {:induction false} JoinLinesCount(ls: seq<string>)
    requires forall i :: 0 <= i < |ls| ==> NoNewline(ls[i])
    ensures CountNewlines(JoinLines(ls)) == |ls|
    ensures ls != [] ==> |JoinLines(ls)| > 0 && JoinLines(ls)[|JoinLines(ls)| - 1] == '\n'
  {
    if ls != [] {
      var init, last := ls[..|ls| - 1], ls[|ls| - 1];
      JoinLinesCount(init);
      CountNewlinesConcat(JoinLines(init), last);
      CountNewlinesConcat(JoinLines(init) + last, "\n");
      NoNewlineCount(last);
    }
  }

  lemma NatToStringNoNewline(n: nat)
    ensures NoNewline(NatToString(n))
  {
    NatToStringDigits(n);
  }

  /** The column labels hold no newline. */
  lemma {:induction false} LabelsNoNewline(k: nat)
    ensures NoNewline(Labels(k))
  {
    if k > 0 {
      LabelsNoNewline(k - 1);
      NatToStringNoNewline(k - 1);
    }
  }

  /** A row's cell text holds no newline. */
  lemma {:induction false} RowCellsNoNewline(m: seq<seq<Bit>>, r: nat, k: nat)
    requires k <= |m| && forall c :: 0 <= c < k ==> r < |m[c]|
    ensures NoNewline(RowCells(m, r, k))
  {
    if k > 0 {
      RowCellsNoNewline(m, r, k - 1);
      NatToStringNoNewline(m[k - 1][r]);
    }
  }

  /** Line `r` of the row lines is the line for row `r`. */
  lemma {:induction false} RowLinesAt(m: seq<seq<Bit>>, numCols: int, numRows: int, k: nat, r: nat)
    requires Shaped(m, numCols, numRows) && r < k <= RangeLen(numRows)
    ensures RowLines(m, numCols, numRows, k)[r] == RowLine(m, numCols, numRows, r)
  {
    if r < k - 1 {
      RowLinesAt(m, numCols, numRows, k - 1, r);
    }
  }

  /** Line 0 of the rendering is the header, line 1 the underline and line
      `r + 2` the line for row `r`; there is one line per row besides those two. */
  lemma LinesLayout(m: seq<seq<Bit>>, numCols: int, numRows: int, r: nat)
    requires Shaped(m, numCols, numRows) && r < RangeLen(numRows)
    ensures var ls := Lines(m, numCols, numRows);
      |ls| == RangeLen(numRows) + 2 && ls[0] == HeaderLine(numCols) && ls[1] == UnderlineLine(numCols)
      && ls[r + 2] == RowLine(m, numCols, numRows, r)
  {
    RowLinesAt(m, numCols, numRows, RangeLen(numRows), r);
  }

  lemma RowLineNoNewline(m: seq<seq<Bit>>, numCols: int, numRows: int, r: nat)
    requires Shaped(m, numCols, numRows) && r < RangeLen(numRows)
    ensures NoNewline(RowLine(m, numCols, numRows, r))
  {
    NatToStringNoNewline(r);
    RowCellsNoNewline(m, r, RangeLen(numCols));
  }

  /** The rendering has `numRows + 2` lines (two for a grid with no rows), each
      terminated by a newline and holding no other newline. */
  lemma RenderingLineCount(m: seq<seq<Bit>>, numCols: int, numRows: int)
    requires Shaped(m, numCols, numRows)
    ensures CountNewlines(Rendering(m, numCols, numRows)) == RangeLen(numRows) + 2
    ensures var s := Rendering(m, numCols, numRows); |s| > 0 && s[|s| - 1] == '\n'
  {
    var ls := Lines(m, numCols, numRows);
    forall i | 0 <= i < |ls|
      ensures NoNewline(ls[i])
    {
      if i == 0 {
        LabelsNoNewline(RangeLen(numCols));
      } else if i >= 2 {
        LinesLayout(m, numCols, numRows, i - 2);
        RowLineNoNewline(m, numCols, numRows, i - 2);
      }
    }
    JoinLinesCount(ls);
  }

  lemma JoinLinesSnoc(ls: seq<string>, line: string)
    ensures JoinLines(ls + [line]) == JoinLines(ls) + line + "\n"
  {
    assert (ls + [line])[..|ls|] == ls;
  }

  /** Cutting the last two characters off a concatenation cuts them off its
      second part when that part has at least two. */
  lemma DropTwo(x: string, y: string)
    requires |y| >= 2
    ensures (x + y)[..|x + y| - 2] == x + y[..|y| - 2]
  {
  }

  lemma JoinTwo(a: string, b: string)
    ensures JoinLines([a, b]) == (a + "\n") + (b + "\n")
  {
    JoinLinesSnoc([], a);
    assert [] + [a] == [a];
    JoinLinesSnoc([a], b);
    assert [a] + [b] == [a, b];
  }

  /** The header text as `__repr__` accumulates it, three dashes per column
      then cut by its last two characters, is the header line and the
      underline line. */
  lemma ColumnLabelsText(numCols: int)
    ensures var built := "   " + Labels(RangeLen(numCols)) + "\n     " + Dashes(3 * RangeLen(numCols));
      built[..|built| - 2] + "\n" == JoinLines([HeaderLine(numCols), UnderlineLine(numCols)])
  {
    var k := RangeLen(numCols);
    var header := HeaderLine(numCols);
    var built := header + "\n     " + Dashes(3 * k);
    JoinTwo(header, UnderlineLine(numCols));
    if numCols >= 1 {
      DropTwo(header + "\n     ", Dashes(3 * k));
      assert Dashes(3 * k)[..3 * k - 2] == Dashes(3 * k - 2);
      Associative(header, "\n     ", Dashes(3 * k - 2));
      assert "\n     " + Dashes(3 * k - 2) == "\n" + UnderlineLine(numCols);
      Associative(header, "\n", UnderlineLine(numCols));
      Associative(header + "\n", UnderlineLine(numCols), "\n");
    } else {
      assert Dashes(0) == "";
      assert built == header + "\n     ";
      DropTwo(header, "\n     ");
      assert "\n     "[..4] == "\n" + UnderlineLine(numCols);
      Associative(header, "\n", UnderlineLine(numCols));
      Associative(header + "\n", UnderlineLine(numCols), "\n");
    }
  }

  lemma DigitsExample()
    ensures NatToString(0) == "0" && NatToString(1) == "1"
  {
  }

  /** On a 2x1 grid whose cells are 0 and 1 the lines are `"     0  1"`,
      `"     ----"` and the line for row 0 listing 0 then 1. */
  lemma LinesExample()
    ensures Lines([[0], [1]], 2, 1) == ["     0  1", "     ----", "0 |  0  1"]
  {
    var m: seq<seq<Bit>> := [[0], [1]];
    var h, u, r := HeaderLine(2), UnderlineLine(2), RowLine(m, 2, 1, 0);
    assert h == "     0  1" by {
      DigitsExample();
      assert Labels(2) == "  0  1";
    }
    assert u == "     ----" by {
      assert Dashes(4) == "----";
    }
    assert r == "0 |  0  1" by {
      DigitsExample();
      assert RowCells(m, 0, 2) == "  0  1";
    }
    assert RowLines(m, 2, 1, 1) == [r] by {
      assert RowLines(m, 2, 1, 0) == [];
    }
  }

  lemma JoinThree(a: string, b: string, c: string)
    ensures JoinLines([a, b, c]) == a + "\n" + b + "\n" + c + "\n"
  {
    JoinLinesSnoc([], a);
    assert [] + [a] == [a];
    JoinLinesSnoc([a], b);
    assert [a] + [b] == [a, b];
    JoinLinesSnoc([a, b], c);
    assert [a, b] + [c] == [a, b, c];
  }

  /** The whole text for that grid: the three lines, each newline-terminated. */
  lemma RenderingExample()
    ensures Rendering([[0], [1]], 2, 1) == "     0  1" + "\n" + "     ----" + "\n" + "0 |  0  1" + "\n"
  {
    LinesExample();
    JoinThree("     0  1", "     ----", "0 |  0  1");
  }

  /** The `+=` accumulation of `__repr__`: the column labels and their
      underline (lines 50-63 of either revision), then the rows. */
  method BuildRepr(m: seq<seq<Bit>>, numCols: int, numRows: int) returns (reprStr: string)
    requires Shaped(m, numCols, numRows)
    ensures reprStr == Rendering(m, numCols, numRows)
  {
    reprStr := "";
    var colLabels := BuildColumnLabels(numCols);
    reprStr := reprStr + colLabels;

    var row := "";
    var r := 0;
    ghost var head := [HeaderLine(numCols), UnderlineLine(numCols)];
    assert head + RowLines(m, numCols, numRows, 0) == head;
    assert "" + colLabels == colLabels;
    while r < numRows
      invariant 0 <= r <= RangeLen(numRows)
      invariant row == ""
      invariant reprStr == JoinLines(head + RowLines(m, numCols, numRows, r))
    {
      row := row + (NatToString(r) + " |");
      var c := 0;
      while c < numCols
        invariant 0 <= c <= RangeLen(numCols)
        invariant row == NatToString(r) + " |" + RowCells(m, r, c)
      {
        Associative(NatToString(r) + " |", RowCells(m, r, c), "  " + NatToString(m[c][r]));
        row := row + ("  " + NatToString(m[c][r]));
        c := c + 1;
      }
      RowStep(m, numCols, numRows, r);
      reprStr := reprStr + row + "\n";
      row := "";
      r := r + 1;
    }
  }

  /** Appending the line for row `r` and a newline extends the text by one row. */
  lemma RowStep(m: seq<seq<Bit>>, numCols: int, numRows: int, r: nat)
    requires Shaped(m, numCols, numRows) && r < RangeLen(numRows)
    ensures var head := [HeaderLine(numCols), UnderlineLine(numCols)];
      JoinLines(head + RowLines(m, numCols, numRows, r + 1))
      == JoinLines(head + RowLines(m, numCols, numRows, r)) + RowLine(m, numCols, numRows, r) + "\n"
  {
    var head := [HeaderLine(numCols), UnderlineLine(numCols)];
    var line := RowLine(m, numCols, numRows, r);
    JoinLinesSnoc(head + RowLines(m, numCols, numRows, r), line);
    assert head + RowLines(m, numCols, numRows, r) + [line] == head + RowLines(m, numCols, numRows, r + 1);
  }

  /** The column labels and the underline beneath them, built as three dashes
      per column and then cut by two characters. */
  method BuildColumnLabels(numCols: int) returns (colLabels: string)
    ensures colLabels == JoinLines([HeaderLine(numCols), UnderlineLine(numCols)])
  {
    colLabels := "   ";
    var i := 0;
    while i < numCols
      invariant 0 <= i <= RangeLen(numCols)
      invariant colLabels == "   " + Labels(i)
    {
      Associative("   ", Labels(i), "  " + NatToString(i));
      colLabels := colLabels + ("  " + NatToString(i));
      i := i + 1;
    }
    colLabels := colLabels + "\n     ";
    ghost var labelled := colLabels;
    i := 0;
    while i < numCols
      invariant 0 <= i <= RangeLen(numCols)
      invariant colLabels == labelled + Dashes(3 * i)
    {
      DashesSnoc(3 * i);
      Associative(labelled, Dashes(3 * i), "---");
      colLabels := colLabels + "---";
      i := i + 1;
    }
    // Remove the trailing two characters: two dashes, or two spaces when there is no column.
    ColumnLabelsText(numCols);
    colLabels := colLabels[..|colLabels| - 2] + "\n";
  }

  lemma Associative(a: string, b: string, c: string)
    ensures (a + b) + c == a + (b + c)
  {
  }

  lemma DashesSnoc(n: nat)
    ensures Dashes(n) + "---" == Dashes(n + 3)
  {
  }
}
