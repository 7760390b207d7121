/** The character grid, as rows of cells, and what each action does to it. */
module Screen {
  import opened Primitives
  import opened Control

  /** `col == cols` means that the next character wraps. */
  datatype Grid = Grid(cols: nat, rows: nat, cells: seq<seq<Cell>>, row: nat, col: nat)

  function BlankRow(cols: nat): (row: seq<Cell>)
    ensures |row| == cols
  {
    seq(cols, _ => BLANK)
  }

  function BlankCells(cols: nat, rows: nat): (cells: seq<seq<Cell>>)
    ensures |cells| == rows
  {
    seq(rows, _ => BlankRow(cols))
  }

  function BlankGrid(cols: nat, rows: nat): Grid {
    Grid(cols, rows, BlankCells(cols, rows), 0, 0)
  }

  /** The shape and cursor bounds. */
  predicate Shaped(g: Grid) {
    && 1 <= g.cols
    && 1 <= g.rows
    && |g.cells| == g.rows
    && (forall r :: 0 <= r < g.rows ==> |g.cells[r]| == g.cols)
    && g.row < g.rows
    && g.col <= g.cols
  }

  /** Every cell is printable and coloured from the palette. */
  predicate CellsOk(cells: seq<seq<Cell>>) {
    forall r, c :: 0 <= r < |cells| && 0 <= c < |cells[r]| ==> CellOk(cells[r][c])
  }

  predicate Valid(g: Grid) {
    Shaped(g) && CellsOk(g.cells)
  }

  /** A change of size blanks the grid and homes the cursor; asking for the
      present size changes nothing. */
  function Resize(g: Grid, cols: nat, rows: nat): Grid {
    if cols == g.cols && rows == g.rows then g
    else BlankGrid(Max(cols, 1), Max(rows, 1))
  }

  function NewLine(g: Grid): Grid
    requires Shaped(g)
  {
    if g.row + 1 >= g.rows then g.(cells := g.cells[1..] + [BlankRow(g.cols)], col := 0)
    else g.(row := g.row + 1, col := 0)
  }

  function SetCell(g: Grid, r: nat, c: nat, cell: Cell): Grid
    requires Shaped(g) && r < g.rows && c < g.cols
  {
    g.(cells := g.cells[r := g.cells[r][c := cell]])
  }

  /** Prints one cell, first wrapping if the cursor is past the last column. */
  function Put(g: Grid, cell: Cell): Grid
    requires Shaped(g)
  {
    var h := if g.col >= g.cols then NewLine(g) else g;
    SetCell(h, h.row, h.col, cell).(col := h.col + 1)
  }

  function TabStop(col: nat, cols: nat): nat {
    Min((col / 8 + 1) * 8, cols)
  }

  /** `line` with columns `from` up to `to` set to `cell`. */
  function Painted(line: seq<Cell>, from: nat, to: nat, cell: Cell): (r: seq<Cell>)
    ensures |r| == |line|
  {
    seq(|line|, c requires 0 <= c < |line| => if from <= c < to then cell else line[c])
  }

  /** Prints blanks up to the next multiple of 8 or the last column; nothing
      when a wrap is pending. */
  function Tabbed(g: Grid, cell: Cell): Grid
    requires Shaped(g)
  {
    if g.col >= g.cols then g
    else
      var stop := TabStop(g.col, g.cols);
      g.(cells := g.cells[g.row := Painted(g.cells[g.row], g.col, stop, cell)], col := stop)
  }

  /** Blanks the cells at which `erased` holds. */
  function Erase(cells: seq<seq<Cell>>, erased: (int, int) -> bool): (out: seq<seq<Cell>>)
    ensures |out| == |cells|
    ensures forall r :: 0 <= r < |cells| ==> |out[r]| == |cells[r]|
  {
    seq(|cells|, r requires 0 <= r < |cells| =>
      seq(|cells[r]|, c requires 0 <= c < |cells[r]| => if erased(r, c) then BLANK else cells[r][c]))
  }

  /** Which cells `CSI n K` blanks. */
  predicate LineErased(g: Grid, kind: u32, r: int, c: int) {
    && r == g.row
    && (if kind == 0 then c >= g.col
        else if kind == 1 then c <= g.col
        else kind == 2)
  }

  /** Which cells `CSI n J` blanks. With a wrap pending, kind 1 runs one cell
      into the next row. */
  predicate DisplayErased(g: Grid, kind: u32, r: int, c: int) {
    if kind == 0 then r > g.row || (r == g.row && c >= g.col)
    else if kind == 1 then
      r < g.row || (r == g.row && c <= g.col) || (r == g.row + 1 && c == 0 && g.col == g.cols)
    else kind == 2 || kind == 3
  }

  function Perform(g: Grid, a: Action): Grid
    requires Shaped(g)
  {
    match a
    case Nothing => g
    case Print(cell) => Put(g, cell)
    case LineFeed => NewLine(g)
    case CarriageReturn => g.(col := 0)
    case Tabulate(cell) => Tabbed(g, cell)
    case Backspace => if g.col > 0 then g.(col := g.col - 1) else g
    case EraseLine(kind) => g.(cells := Erase(g.cells, (r, c) => LineErased(g, kind, r, c)))
    case EraseDisplay(kind) =>
      var h := g.(cells := Erase(g.cells, (r, c) => DisplayErased(g, kind, r, c)));
      if kind == 2 || kind == 3 then h.(row := 0, col := 0) else h
    case Forward(n) => g.(col := Min(g.col + n, g.cols - 1))
    case Backward(n) => g.(col := Max(g.col - n, 0))
    case Column(n) => g.(col := Min(Max(n - 1, 0), g.cols - 1))
    case Position(r, c) => g.(row := Min(Max(r - 1, 0), g.rows - 1), col := Min(Max(c - 1, 0), g.cols - 1))
  }

  /** No action moves the cursor out of the grid or changes its shape. */
  lemma PerformKeepsShape(g: Grid, a: Action)
    requires Shaped(g)
    ensures Shaped(Perform(g, a))
    ensures Perform(g, a).cols == g.cols && Perform(g, a).rows == g.rows
  {
  }

  lemma PutKeepsCells(g: Grid, cell: Cell)
    requires Valid(g) && CellOk(cell)
    ensures CellsOk(Put(g, cell).cells)
  {
  }

  lemma NewLineKeepsCells(g: Grid)
    requires Valid(g)
    ensures CellsOk(NewLine(g).cells)
  {
  }

  /** Every action keeps the grid well formed, whatever its arguments. */
  lemma PerformKeepsValid(g: Grid, a: Action)
    requires Valid(g) && ActionOk(a)
    ensures Valid(Perform(g, a))
    ensures Perform(g, a).cols == g.cols && Perform(g, a).rows == g.rows
  {
    PerformKeepsShape(g, a);
    if a.Print? {
      PutKeepsCells(g, a.cell);
    } else if a.LineFeed? {
      NewLineKeepsCells(g);
    }
  }

  lemma ResizeKeepsValid(g: Grid, cols: nat, rows: nat)
    requires Valid(g)
    ensures Valid(Resize(g, cols, rows))
  {
  }

  function PerformAll(g: Grid, acts: seq<Action>): (h: Grid)
    requires Shaped(g)
    ensures Shaped(h) && h.cols == g.cols && h.rows == g.rows
    decreases |acts|
  {
    if acts == [] then g
    else
      PerformKeepsShape(g, acts[0]);
      PerformAll(Perform(g, acts[0]), acts[1..])
  }

  lemma {:induction false} PerformAppend(g: Grid, a: seq<Action>, b: seq<Action>)
    requires Shaped(g)
    ensures PerformAll(g, a + b) == PerformAll(PerformAll(g, a), b)
    decreases |a|
  {
    if a == [] {
      assert a + b == b;
    } else {
      PerformKeepsShape(g, a[0]);
      assert (a + b)[1..] == a[1..] + b;
      PerformAppend(Perform(g, a[0]), a[1..], b);
    }
  }
}
