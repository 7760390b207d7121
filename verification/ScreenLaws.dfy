/** Laws that relate the cursor and erase functions to each other. */
module ScreenLaws {
  import opened Primitives
  import opened Control
  import opened Screen
  import opened TerminalSpec
  import opened CsiParameters
  import opened Repaint

  /** Moving right and back by the same amount returns exactly when the move right is
      not cut short, or starts in the first column. */
  lemma ForwardThenBackward(g: Grid, n: u32)
    requires Shaped(g)
    ensures Perform(Perform(g, Forward(n)), Backward(n)) == g <==> g.col == 0 || g.col + n < g.cols
  {
  }

  /** Addressing a column is addressing the cursor on its own row. */
  lemma ColumnIsPosition(g: Grid, n: u32)
    requires Shaped(g) && g.row + 1 < WRAP
    ensures Perform(g, Column(n)) == Perform(g, Position(g.row + 1, n))
  {
  }

  lemma EraseTwice(cells: seq<seq<Cell>>, p: (int, int) -> bool, q: (int, int) -> bool, both: (int, int) -> bool)
    requires forall r, c :: 0 <= r < |cells| && 0 <= c < |cells[r]| ==> (both(r, c) <==> p(r, c) || q(r, c))
    ensures Erase(Erase(cells, p), q) == Erase(cells, both)
  {
    var once := Erase(cells, p);
    forall r | 0 <= r < |cells|
      ensures Erase(once, q)[r] == Erase(cells, both)[r]
    {
      forall c | 0 <= c < |cells[r]|
        ensures Erase(once, q)[r][c] == Erase(cells, both)[r][c]
      {
        assert both(r, c) <==> p(r, c) || q(r, c);
      }
    }
  }

  /** To the end of the line and from its start: together, the whole line. */
  lemma LineHalves(g: Grid)
    requires Shaped(g)
    ensures Perform(Perform(g, EraseLine(0)), EraseLine(1)) == Perform(g, EraseLine(2))
  {
    var h := Perform(g, EraseLine(0));
    EraseTwice(g.cells, (r, c) => LineErased(g, 0, r, c), (r, c) => LineErased(h, 1, r, c),
      (r, c) => LineErased(g, 2, r, c));
  }

  /** To the end of the display and from its start: together, the whole display. */
  lemma DisplayHalves(g: Grid)
    requires Shaped(g)
    ensures Perform(Perform(g, EraseDisplay(0)), EraseDisplay(1)).cells == Perform(g, EraseDisplay(2)).cells
    ensures Perform(g, EraseDisplay(2)).cells == BlankCells(g.cols, g.rows)
  {
    var h := Perform(g, EraseDisplay(0));
    EraseTwice(g.cells, (r, c) => DisplayErased(g, 0, r, c), (r, c) => DisplayErased(h, 1, r, c),
      (r, c) => DisplayErased(g, 2, r, c));
    var all := Perform(g, EraseDisplay(2)).cells;
    forall r | 0 <= r < g.rows
      ensures all[r] == BlankRow(g.cols)
    {
    }
  }

  /** The rows above the cursor, blank, and the cursor's row as `CSI 1 K` leaves it. */
  function AboveAndLeft(g: Grid): seq<seq<Cell>>
    requires Shaped(g)
  {
    Erase(g.cells, (r, c) => r < g.row || LineErased(g, 1, r, c))
  }

  /** `CSI 1 J` erases up to the cursor like the rows above and `CSI 1 K` together,
      exactly unless a wrap is pending above a row whose first cell is not blank. */
  lemma EraseUpToCursor(g: Grid)
    requires Shaped(g)
    ensures Perform(g, EraseDisplay(1)).cells == AboveAndLeft(g) <==>
      !(g.col == g.cols && g.row + 1 < g.rows && g.cells[g.row + 1][0] != BLANK)
  {
    var a, b := Perform(g, EraseDisplay(1)).cells, AboveAndLeft(g);
    if g.col == g.cols && g.row + 1 < g.rows && g.cells[g.row + 1][0] != BLANK {
      assert a[g.row + 1][0] != b[g.row + 1][0];
    } else {
      forall r | 0 <= r < g.rows
        ensures a[r] == b[r]
      {
        assert forall c :: 0 <= c < g.cols ==> a[r][c] == b[r][c];
      }
    }
  }

  /** A line feed, `b`, home, `c`: on one column and two rows, `c` above `b` with a wrap
      pending after `c`. */
  function Stacked(): seq<u8> {
    [LF, 'b' as int] + HomeAndPrint()
  }

  function HomeAndPrint(): seq<u8> {
    CsiBytes(Written([1, 1]), 'H' as int) + ['c' as int]
  }

  /** One column and two rows, a wrap pending on the first, `b` on the second. */
  predicate IsStacked(g: Grid) {
    && Shaped(g) && g.cols == 1 && g.rows == 2 && g.row == 0 && g.col == 1
    && g.cells[1][0].ch == 'b' as int
  }

  lemma StackedRows()
    ensures var t := FeedAll(Fresh(1, 2), [LF, 'b' as int]);
      && t.control.mode == Ground && t.grid.cols == 1 && t.grid.rows == 2
      && t.grid.cells[1][0].ch == 'b' as int
  {
    var t := Fresh(1, 2);
    assert [LF, 'b' as int][1..] == ['b' as int];
    Printed(Feed(t, LF), 'b' as int);
  }

  lemma StackedByPutting(u: Term, g: Grid)
    requires Shaped(g) && g.cols == 1 && g.rows == 2 && g.cells[1][0].ch == 'b' as int
    requires u.control.mode == Ground && u.grid == Perform(g, Position(1, 1)) && Shaped(u.grid)
    ensures var v := FeedAll(u, ['c' as int]); v.control.mode == Ground && IsStacked(v.grid)
  {
    Printed(u, 'c' as int);
  }

  lemma StackedOnTop(t: Term)
    requires t.control.mode == Ground && Shaped(t.grid) && t.grid.cols == 1 && t.grid.rows == 2
    requires t.grid.cells[1][0].ch == 'b' as int
    ensures var u := FeedAll(t, HomeAndPrint()); u.control.mode == Ground && IsStacked(u.grid)
  {
    var home := CsiBytes(Written([1, 1]), 'H' as int);
    Performed(t, [1, 1], 'H' as int);
    StackedByPutting(FeedAll(t, home), t.grid);
    FeedAppend(t, home, ['c' as int]);
  }

  lemma StackedScreen()
    ensures var t := FeedAll(Fresh(1, 2), Stacked()); t.control.mode == Ground && IsStacked(t.grid)
  {
    StackedRows();
    StackedOnTop(FeedAll(Fresh(1, 2), [LF, 'b' as int]));
    FeedAppend(Fresh(1, 2), [LF, 'b' as int], HomeAndPrint());
  }

  /** On such a screen `ESC[1J` blanks `b`, on the row below the cursor. */
  predicate Spills(t: Term)
    requires IsStacked(t.grid)
  {
    var cells := FeedAll(t, CsiBytes(Written([1]), 'J' as int)).grid.cells;
    |cells| == 2 && cells[1] == [BLANK] && cells[1] != t.grid.cells[1] == AboveAndLeft(t.grid)[1]
  }

  lemma StackedErased(g: Grid)
    requires IsStacked(g)
    ensures Perform(g, EraseDisplay(1)).cells[1] == [BLANK] && AboveAndLeft(g)[1] == g.cells[1] != [BLANK]
  {
  }

  lemma StackedSpills(t: Term)
    requires t.control.mode == Ground && IsStacked(t.grid)
    ensures Spills(t)
  {
    Performed(t, [1], 'J' as int);
    StackedErased(t.grid);
  }

  /** Such a screen is reached from a fresh terminal. */
  lemma EraseCanSpill()
    ensures var t := FeedAll(Fresh(1, 2), Stacked()); IsStacked(t.grid) && Spills(t)
  {
    StackedScreen();
    StackedSpills(FeedAll(Fresh(1, 2), Stacked()));
  }

  /** Other erase arguments do nothing. */
  lemma OtherErasures(g: Grid, kind: u32)
    requires Shaped(g)
    ensures kind > 2 ==> Perform(g, EraseLine(kind)) == g
    ensures kind > 3 ==> Perform(g, EraseDisplay(kind)) == g
  {
    if kind > 2 {
      assert Erase(g.cells, (r, c) => LineErased(g, kind, r, c)) == g.cells by {
        EraseNone(g.cells, (r, c) => LineErased(g, kind, r, c));
      }
    }
    if kind > 3 {
      EraseNone(g.cells, (r, c) => DisplayErased(g, kind, r, c));
    }
  }

  lemma EraseNone(cells: seq<seq<Cell>>, p: (int, int) -> bool)
    requires forall r, c :: 0 <= r < |cells| && 0 <= c < |cells[r]| ==> !p(r, c)
    ensures Erase(cells, p) == cells
  {
    forall r | 0 <= r < |cells|
      ensures Erase(cells, p)[r] == cells[r]
    {
      assert forall c :: 0 <= c < |cells[r]| ==> Erase(cells, p)[r][c] == cells[r][c];
    }
  }
}
