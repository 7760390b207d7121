/** The terminal: a control state, a grid, and the flag that a repaint is due. */
module TerminalSpec {
  import opened Primitives
  import opened SgrState
  import opened Control
  import opened Screen

  datatype Term = Term(control: Control.State, grid: Grid, dirty: bool)

  predicate TermOk(t: Term) {
    Screen.Valid(t.grid) && SgrOk(t.control.sgr)
  }

  function Fresh(cols: nat, rows: nat): Term {
    Term(START, BlankGrid(cols, rows), true)
  }

  /** One byte: the control automaton moves and the screen performs its request. */
  function Feed(t: Term, b: u8): Term
    requires Shaped(t.grid)
  {
    Term(Step(t.control, b), Perform(t.grid, ActionOf(t.control, b)), true)
  }

  function ResizeTerm(t: Term, cols: nat, rows: nat): Term {
    t.(grid := Resize(t.grid, cols, rows),
       dirty := t.dirty || cols != t.grid.cols || rows != t.grid.rows)
  }

  function FeedAll(t: Term, bytes: seq<u8>): (u: Term)
    requires Shaped(t.grid)
    ensures Shaped(u.grid)
    decreases |bytes|
  {
    if bytes == [] then t
    else
      PerformKeepsShape(t.grid, ActionOf(t.control, bytes[0]));
      FeedAll(Feed(t, bytes[0]), bytes[1..])
  }

  lemma {:induction false} FeedAppend(t: Term, a: seq<u8>, b: seq<u8>)
    requires Shaped(t.grid)
    ensures FeedAll(t, a + b) == FeedAll(FeedAll(t, a), b)
    decreases |a|
  {
    if a == [] {
      assert a + b == b;
    } else {
      PerformKeepsShape(t.grid, ActionOf(t.control, a[0]));
      assert (a + b)[1..] == a[1..] + b;
      FeedAppend(Feed(t, a[0]), a[1..], b);
    }
  }

  /** A run splits into the run of the automaton and the actions it requests. */
  lemma {:induction false} FeedFactors(t: Term, bytes: seq<u8>)
    requires Shaped(t.grid)
    ensures FeedAll(t, bytes).control == Run(t.control, bytes)
    ensures FeedAll(t, bytes).grid == PerformAll(t.grid, Actions(t.control, bytes))
    ensures FeedAll(t, bytes).dirty == (t.dirty || bytes != [])
    decreases |bytes|
  {
    if bytes != [] {
      var a := ActionOf(t.control, bytes[0]);
      PerformKeepsShape(t.grid, a);
      FeedFactors(Feed(t, bytes[0]), bytes[1..]);
      assert Actions(t.control, bytes)[1..] == Actions(Step(t.control, bytes[0]), bytes[1..]);
    }
  }

  /** What can happen to a terminal. */
  datatype Event = Byte(b: u8) | Size(cols: nat, rows: nat)

  function On(t: Term, e: Event): Term
    requires Shaped(t.grid)
  {
    match e
    case Byte(b) => Feed(t, b)
    case Size(cols, rows) => ResizeTerm(t, cols, rows)
  }

  lemma OnKeepsOk(t: Term, e: Event)
    requires TermOk(t)
    ensures TermOk(On(t, e))
  {
    match e
    case Byte(b) =>
      StepKeepsIndices(t.control, b);
      PerformKeepsValid(t.grid, ActionOf(t.control, b));
    case Size(cols, rows) =>
      ResizeKeepsValid(t.grid, cols, rows);
  }

  function Replay(t: Term, es: seq<Event>): (u: Term)
    requires TermOk(t)
    decreases |es|
  {
    if es == [] then t
    else
      OnKeepsOk(t, es[0]);
      Replay(On(t, es[0]), es[1..])
  }

  /** Safety of every interleaving of bytes and size changes. */
  lemma {:induction false} ReplayIsSafe(t: Term, es: seq<Event>)
    requires TermOk(t)
    ensures TermOk(Replay(t, es))
    decreases |es|
  {
    if es != [] {
      OnKeepsOk(t, es[0]);
      ReplayIsSafe(On(t, es[0]), es[1..]);
    }
  }

  /** The bytes of a history. */
  function BytesOf(es: seq<Event>): seq<u8>
    decreases |es|
  {
    if es == [] then []
    else if es[0].Byte? then [es[0].b] + BytesOf(es[1..])
    else BytesOf(es[1..])
  }

  /** Parser and colour state depend on the bytes alone: not on the size or
      contents of the screen, nor on size changes anywhere in the history. */
  lemma {:induction false} ControlIgnoresScreen(t: Term, es: seq<Event>)
    requires TermOk(t)
    ensures Replay(t, es).control == Run(t.control, BytesOf(es))
    decreases |es|
  {
    if es != [] {
      OnKeepsOk(t, es[0]);
      ControlIgnoresScreen(On(t, es[0]), es[1..]);
    }
  }

  /** Two terminals that agree on parser and colour state stay in agreement on the
      same bytes, with any size changes in either. */
  lemma AgreementSurvives(t: Term, u: Term, es: seq<Event>, fs: seq<Event>)
    requires TermOk(t) && TermOk(u)
    requires t.control == u.control && BytesOf(es) == BytesOf(fs)
    ensures Replay(t, es).control == Replay(u, fs).control
  {
    ControlIgnoresScreen(t, es);
    ControlIgnoresScreen(u, fs);
  }
}

/** The terminal object: flat fields over one flat array of cells. */
module TerminalObject {
  import opened Primitives
  import opened Palette
  import opened Framebuffer
  import opened SgrState
  import opened Control
  import opened Screen
  import opened TerminalSpec

  /** A cell of an earlier row comes before any place in a later one. */
  lemma IndexEarlier(cols: nat, r: nat, c: nat, r': nat, c': nat)
    requires c < cols && r < r'
    ensures r * cols + c < r' * cols + c'
  {
    MulLe(cols, r + 1, r');
    assert (r + 1) * cols == r * cols + cols;
  }

  /** A cell of a later row comes at or after any place in an earlier one, and after it
      unless that place is the end of the row just before. */
  lemma IndexLater(cols: nat, r: nat, c: nat, r': nat, c': nat)
    requires c < cols && c' <= cols && r > r'
    ensures r * cols + c >= r' * cols + c'
    ensures r > r' + 1 || c > 0 || c' < cols ==> r * cols + c > r' * cols + c'
  {
    MulLe(cols, r' + 1, r);
    assert (r' + 1) * cols == r' * cols + cols;
    if r > r' + 1 {
      MulLe(cols, r' + 2, r);
      assert (r' + 2) * cols == r' * cols + cols + cols;
    }
  }

  /** Row-major order of a grid with `cols` columns. */
  lemma IndexOrder(cols: nat, r: nat, c: nat, r': nat, c': nat)
    requires c < cols && c' <= cols
    ensures r < r' ==> r * cols + c < r' * cols + c'
    ensures r == r' ==> (r * cols + c < r' * cols + c' <==> c < c')
    ensures r > r' ==> r * cols + c >= r' * cols + c'
    ensures r > r' && (r > r' + 1 || c > 0 || c' < cols) ==> r * cols + c > r' * cols + c'
  {
    if r < r' {
      IndexEarlier(cols, r, c, r', c');
    } else if r > r' {
      IndexLater(cols, r, c, r', c');
    }
  }

  lemma IndexBound(cols: nat, rows: nat, r: nat, c: nat)
    requires r < rows && c <= cols
    ensures r * cols + c <= cols * rows
    ensures c < cols ==> r * cols + c < cols * rows
  {
    MulLe(cols, r + 1, rows);
    assert (r + 1) * cols == r * cols + cols;
  }

  /** `flat` holds the rows `lines`, of `cols` cells each, in row-major order. */
  ghost predicate Holds(flat: seq<Cell>, cols: nat, lines: seq<seq<Cell>>) {
    && |flat| == cols * |lines|
    && (forall r :: 0 <= r < |lines| ==> |lines[r]| == cols)
    && (forall r, c :: 0 <= r < |lines| && 0 <= c < cols ==> HeldAt(flat, cols, lines, r, c))
  }

  ghost predicate HeldAt(flat: seq<Cell>, cols: nat, lines: seq<seq<Cell>>, r: nat, c: nat)
    requires r < |lines| && c < |lines[r]|
  {
    var i := r * cols + c;
    i < |flat| && flat[i] == lines[r][c]
  }

  lemma HoldsBlank(cols: nat, rows: nat)
    ensures Holds(seq(cols * rows, _ => BLANK), cols, BlankCells(cols, rows))
  {
    var flat := seq(cols * rows, _ => BLANK);
    var lines := BlankCells(cols, rows);
    forall r, c | 0 <= r < rows && 0 <= c < cols
      ensures HeldAt(flat, cols, lines, r, c)
    {
      IndexBound(cols, rows, r, c);
    }
  }

  /** Dropping the first `cols` cells and appending a blank row scrolls by one line. */
  lemma HoldsScroll(flat: seq<Cell>, cols: nat, lines: seq<seq<Cell>>)
    requires Holds(flat, cols, lines) && |lines| > 0
    ensures cols <= |flat|
    ensures Holds(flat[cols..] + BlankRow(cols), cols, lines[1..] + [BlankRow(cols)])
  {
    var rows := |lines|;
    IndexBound(cols, rows, rows - 1, cols);
    var flat' := flat[cols..] + BlankRow(cols);
    var lines' := lines[1..] + [BlankRow(cols)];
    forall r, c | 0 <= r < rows && 0 <= c < cols
      ensures HeldAt(flat', cols, lines', r, c)
    {
      IndexBound(cols, rows, r, c);
      IndexOrder(cols, r, c, rows - 1, 0);
      assert |flat| - cols == (rows - 1) * cols;
      if r < rows - 1 {
        assert (r + 1) * cols + c == r * cols + c + cols;
        assert HeldAt(flat, cols, lines, r + 1, c);
      }
    }
  }

  lemma HoldsUpdate(flat: seq<Cell>, cols: nat, lines: seq<seq<Cell>>, r: nat, c: nat, cell: Cell)
    requires Holds(flat, cols, lines) && r < |lines| && c < cols
    ensures r * cols + c < |flat|
    ensures Holds(flat[r * cols + c := cell], cols, lines[r := lines[r][c := cell]])
  {
    IndexBound(cols, |lines|, r, c);
    var flat' := flat[r * cols + c := cell];
    var lines' := lines[r := lines[r][c := cell]];
    forall r', c' | 0 <= r' < |lines'| && 0 <= c' < cols
      ensures HeldAt(flat', cols, lines', r', c')
    {
      assert HeldAt(flat, cols, lines, r', c');
      IndexOrder(cols, r', c', r, c);
    }
  }

  function Blanked(flat: seq<Cell>, lo: nat, hi: nat): (out: seq<Cell>)
    ensures |out| == |flat|
  {
    seq(|flat|, i requires 0 <= i < |flat| => if lo <= i < hi then BLANK else flat[i])
  }

  /** Cell (r, c) lies in the flat range from `lo` up to `hi`. */
  ghost predicate InRange(cols: nat, lo: nat, hi: nat, r: nat, c: nat) {
    lo <= r * cols + c < hi
  }

  /** Blanking a flat range erases the cells whose index falls in it. */
  lemma HoldsErase(flat: seq<Cell>, cols: nat, lines: seq<seq<Cell>>, lo: nat, hi: nat, erased: (int, int) -> bool)
    requires Holds(flat, cols, lines)
    requires forall r, c :: 0 <= r < |lines| && 0 <= c < cols ==> (erased(r, c) <==> InRange(cols, lo, hi, r, c))
    ensures Holds(Blanked(flat, lo, hi), cols, Erase(lines, erased))
  {
    var flat' := Blanked(flat, lo, hi);
    var lines' := Erase(lines, erased);
    forall r, c | 0 <= r < |lines| && 0 <= c < cols
      ensures HeldAt(flat', cols, lines', r, c)
    {
      EraseAt(flat, cols, lines, lo, hi, erased, r, c);
    }
  }

  lemma EraseAt(flat: seq<Cell>, cols: nat, lines: seq<seq<Cell>>, lo: nat, hi: nat,
                erased: (int, int) -> bool, r: nat, c: nat)
    requires r < |lines| && c < |lines[r]| && HeldAt(flat, cols, lines, r, c)
    requires erased(r, c) <==> InRange(cols, lo, hi, r, c)
    ensures HeldAt(Blanked(flat, lo, hi), cols, Erase(lines, erased), r, c)
  {
  }

  /** The flat range that `CSI kind K` blanks. */
  ghost function LineSpan(g: Grid, kind: u32): (nat, nat)
    requires Shaped(g)
  {
    var at := g.row * g.cols;
    if kind == 0 then (at + g.col, at + g.cols)
    else if kind == 1 then (at, at + Min(g.col, g.cols - 1) + 1)
    else if kind == 2 then (at, at + g.cols)
    else (0, 0)
  }

  /** The flat range that `CSI kind J` blanks. */
  ghost function DisplaySpan(g: Grid, kind: u32): (nat, nat)
    requires Shaped(g)
  {
    var at, size := g.row * g.cols, g.cols * g.rows;
    if kind == 0 then (at + g.col, size)
    else if kind == 1 then (0, Min(at + g.col, size - 1) + 1)
    else if kind == 2 || kind == 3 then (0, size)
    else (0, 0)
  }

  lemma LineSpanCovers(g: Grid, kind: u32, r: nat, c: nat)
    requires Shaped(g) && r < g.rows && c < g.cols
    ensures var (lo, hi) := LineSpan(g, kind); LineErased(g, kind, r, c) <==> InRange(g.cols, lo, hi, r, c)
  {
    IndexOrder(g.cols, r, c, g.row, 0);
    IndexOrder(g.cols, r, c, g.row, g.col);
    IndexOrder(g.cols, r, c, g.row, g.cols);
  }

  lemma DisplaySpanCovers(g: Grid, kind: u32, r: nat, c: nat)
    requires Shaped(g) && r < g.rows && c < g.cols
    ensures var (lo, hi) := DisplaySpan(g, kind); DisplayErased(g, kind, r, c) <==> InRange(g.cols, lo, hi, r, c)
  {
    CursorOrder(g, r, c);
    IndexBound(g.cols, g.rows, r, c);
  }

  /** ED 0 names the cells from the flat index of the cursor on, ED 1 those up to it. */
  lemma CursorOrder(g: Grid, r: nat, c: nat)
    requires Shaped(g) && r < g.rows && c < g.cols
    ensures DisplayErased(g, 0, r, c) <==> r * g.cols + c >= g.row * g.cols + g.col
    ensures DisplayErased(g, 1, r, c) <==> r * g.cols + c <= g.row * g.cols + g.col
  {
    if r < g.row {
      IndexEarlier(g.cols, r, c, g.row, g.col);
    } else if r > g.row {
      IndexLater(g.cols, r, c, g.row, g.col);
      if r == g.row + 1 {
        assert (g.row + 1) * g.cols == g.row * g.cols + g.cols;
      }
    }
  }

  lemma HoldsLineErase(flat: seq<Cell>, g: Grid, kind: u32)
    requires Shaped(g) && Holds(flat, g.cols, g.cells)
    ensures var (lo, hi) := LineSpan(g, kind);
      lo <= hi <= |flat| && Holds(Blanked(flat, lo, hi), g.cols, Perform(g, EraseLine(kind)).cells)
  {
    var (lo, hi) := LineSpan(g, kind);
    IndexBound(g.cols, g.rows, g.row, g.cols);
    var erased := (r, c) => LineErased(g, kind, r, c);
    forall r, c | 0 <= r < g.rows && 0 <= c < g.cols
      ensures erased(r, c) <==> InRange(g.cols, lo, hi, r, c)
    {
      LineSpanCovers(g, kind, r, c);
    }
    HoldsErase(flat, g.cols, g.cells, lo, hi, erased);
  }

  lemma HoldsDisplayErase(flat: seq<Cell>, g: Grid, kind: u32)
    requires Shaped(g) && Holds(flat, g.cols, g.cells)
    ensures var (lo, hi) := DisplaySpan(g, kind);
      lo <= hi <= |flat| && Holds(Blanked(flat, lo, hi), g.cols, Perform(g, EraseDisplay(kind)).cells)
  {
    var (lo, hi) := DisplaySpan(g, kind);
    IndexBound(g.cols, g.rows, g.row, g.col);
    IndexBound(g.cols, g.rows, g.row, 0);
    var erased := (r, c) => DisplayErased(g, kind, r, c);
    forall r, c | 0 <= r < g.rows && 0 <= c < g.cols
      ensures erased(r, c) <==> InRange(g.cols, lo, hi, r, c)
    {
      DisplaySpanCovers(g, kind, r, c);
    }
    HoldsErase(flat, g.cols, g.cells, lo, hi, erased);
  }

  class Terminal {
    var cols: nat
    var rows: nat
    var cells: array<Cell>
    var cursorRow: nat
    var cursorCol: nat
    var esc: Control.Mode
    var dirty: bool
    var csiParams: seq<u32>
    var csiCur: Option<u32>
    var curFg: Option<u8>
    var curBg: Option<u8>
    var bold: bool

    /** The rows that the flat array holds. */
    ghost var lines: seq<seq<Cell>>

    ghost predicate Laid()
      reads this, cells
    {
      |lines| == rows && Holds(cells[..], cols, lines)
    }

    ghost function View(): Term
      reads this
    {
      Term(Control.State(esc, csiParams, csiCur, Sgr(curFg, curBg, bold)),
           Grid(cols, rows, lines, cursorRow, cursorCol), dirty)
    }

    ghost predicate Valid()
      reads this, cells
    {
      Laid() && TermOk(View())
    }

    constructor (cols: nat, rows: nat)
      ensures View() == Fresh(cols, rows)
      ensures fresh(cells)
      ensures cols >= 1 && rows >= 1 ==> Valid()
    {
      this.cols := cols;
      this.rows := rows;
      var blank := new Cell[cols * rows](_ => BLANK);
      cells := blank;
      cursorRow := 0;
      cursorCol := 0;
      esc := Ground;
      dirty := true;
      csiParams := [];
      csiCur := None;
      curFg := None;
      curBg := None;
      bold := false;
      lines := BlankCells(cols, rows);
      new;
      BlankIsLaid();
    }

    lemma BlankIsLaid()
      requires cells.Length == cols * rows
      requires forall i :: 0 <= i < cells.Length ==> cells[i] == BLANK
      requires lines == BlankCells(cols, rows)
      ensures Laid()
    {
      assert cells[..] == seq(cols * rows, _ => BLANK);
      HoldsBlank(cols, rows);
    }

    method Resize(cols: nat, rows: nat)
      requires Valid()
      modifies this
      ensures Valid()
      ensures View() == ResizeTerm(old(View()), cols, rows)
      ensures cells == old(cells) || fresh(cells)
    {
      ResizeKeepsValid(View().grid, cols, rows);
      if cols == this.cols && rows == this.rows {
        return;
      }
      Reset(Max(cols, 1), Max(rows, 1));
    }

    /** Blanks the grid at a new size and homes the cursor. */
    method Reset(cols: nat, rows: nat)
      modifies this
      ensures Laid() && fresh(cells)
      ensures View() == old(View()).(grid := BlankGrid(cols, rows), dirty := true)
    {
      this.cols := cols;
      this.rows := rows;
      cells := new Cell[cols * rows](_ => BLANK);
      cursorRow := 0;
      cursorCol := 0;
      dirty := true;
      lines := BlankCells(cols, rows);
      BlankIsLaid();
    }

    /** Blanks the flat range from `lo` up to `hi`. */
    method Fill(lo: nat, hi: nat)
      requires lo <= hi <= cells.Length
      modifies cells
      ensures cells[..] == Blanked(old(cells[..]), lo, hi)
    {
      for k := lo to hi
        invariant cells[..] == Blanked(old(cells[..]), lo, k)
      {
        cells[k] := BLANK;
      }
    }

    /** Moves the cells from `cols` onwards to the front and blanks the rest. */
    method ScrollUp()
      requires cols <= cells.Length
      modifies cells
      ensures cells[..] == old(cells[..])[cols..] + BlankRow(cols)
    {
      var last := cells.Length - cols;
      forall i | 0 <= i < last {
        cells[i] := cells[i + cols];
      }
      ghost var shifted := cells[..];
      Fill(last, cells.Length);
      assert cells[..last] == shifted[..last] == old(cells[..])[cols..];
      assert cells[last..] == BlankRow(cols);
    }

    method Newline()
      requires Valid()
      modifies this`cursorRow, this`cursorCol, this`lines, cells
      ensures Valid()
      ensures View() == old(View()).(grid := NewLine(old(View().grid)))
    {
      NewLineKeepsCells(View().grid);
      cursorCol := 0;
      if cursorRow + 1 >= rows {
        HoldsScroll(cells[..], cols, lines);
        ScrollUp();
        lines := lines[1..] + [BlankRow(cols)];
      } else {
        cursorRow := cursorRow + 1;
      }
    }

    method Put(ch: u8)
      requires Valid() && IsPrintable(ch)
      modifies this`cursorRow, this`cursorCol, this`lines, cells
      ensures Valid()
      ensures View() == old(View()).(grid := Screen.Put(old(View().grid), Inked(ch, old(View().control.sgr))))
    {
      PutKeepsCells(View().grid, Inked(ch, View().control.sgr));
      if cursorCol >= cols {
        Newline();
      }
      var fg := if bold && curFg.Some? then Some(Bright(curFg.value)) else curFg;
      Store(Cell(ch, fg, curBg));
    }

    /** Stores a cell at the cursor and moves right. */
    method Store(cell: Cell)
      requires Laid() && Shaped(View().grid) && cursorCol < cols
      modifies this`cursorCol, this`lines, cells
      ensures Laid()
      ensures View() == old(View()).(
        grid := SetCell(old(View().grid), cursorRow, old(cursorCol), cell).(col := old(cursorCol) + 1))
    {
      var idx := cursorRow * cols + cursorCol;
      HoldsUpdate(cells[..], cols, lines, cursorRow, cursorCol, cell);
      ghost var was := cells[..];
      cells[idx] := cell;
      assert cells[..] == was[idx := cell];
      lines := lines[cursorRow := lines[cursorRow][cursorCol := cell]];
      cursorCol := cursorCol + 1;
    }

    /** Moves the cursor within the grid. */
    method SetCursor(row: nat, col: nat)
      requires Valid() && row < rows && col <= cols
      modifies this`cursorRow, this`cursorCol
      ensures Valid()
      ensures View() == old(View()).(grid := old(View().grid).(row := row, col := col))
    {
      cursorRow := row;
      cursorCol := col;
    }

    function CsiParam(i: nat, default: u32): u32
      reads this
    {
      if i < |csiParams| && csiParams[i] != 0 then csiParams[i] else default
    }

    /** The flat part of `CSI kind K`. */
    method BlankLine(kind: u32)
      requires Valid()
      modifies cells
      ensures cells[..] == Blanked(old(cells[..]), LineSpan(View().grid, kind).0, LineSpan(View().grid, kind).1)
    {
      IndexBound(cols, rows, cursorRow, cols);
      var rowStart := cursorRow * cols;
      if kind == 0 {
        Fill(rowStart + cursorCol, rowStart + cols);
      } else if kind == 1 {
        Fill(rowStart, rowStart + Min(cursorCol, cols - 1) + 1);
      } else if kind == 2 {
        Fill(rowStart, rowStart + cols);
      } else {
        assert cells[..] == Blanked(cells[..], 0, 0);
      }
    }

    /** The flat part of `CSI kind J`. */
    method BlankDisplay(kind: u32)
      requires Valid()
      modifies cells
      ensures cells[..] == Blanked(old(cells[..]), DisplaySpan(View().grid, kind).0, DisplaySpan(View().grid, kind).1)
    {
      IndexBound(cols, rows, cursorRow, cursorCol);
      IndexBound(cols, rows, cursorRow, 0);
      var rowStart := cursorRow * cols;
      if kind == 0 {
        Fill(rowStart + cursorCol, cells.Length);
      } else if kind == 1 {
        Fill(0, Min(rowStart + cursorCol, cells.Length - 1) + 1);
      } else if kind == 2 || kind == 3 {
        Fill(0, cells.Length);
      } else {
        assert cells[..] == Blanked(cells[..], 0, 0);
      }
    }

    /** `CSI kind K`. */
    method EraseInLine(kind: u32)
      requires Valid()
      modifies this`lines, cells
      ensures Valid()
      ensures View() == old(View()).(grid := Perform(old(View().grid), EraseLine(kind)))
    {
      ghost var g := View().grid;
      PerformKeepsValid(g, EraseLine(kind));
      HoldsLineErase(cells[..], g, kind);
      BlankLine(kind);
      lines := Perform(g, EraseLine(kind)).cells;
    }

    /** `CSI kind J`. */
    method EraseInDisplay(kind: u32)
      requires Valid()
      modifies this`lines, this`cursorRow, this`cursorCol, cells
      ensures Valid()
      ensures View() == old(View()).(grid := Perform(old(View().grid), EraseDisplay(kind)))
    {
      ghost var g := View().grid;
      PerformKeepsValid(g, EraseDisplay(kind));
      HoldsDisplayErase(cells[..], g, kind);
      BlankDisplay(kind);
      lines := Perform(g, EraseDisplay(kind)).cells;
      assert Valid();
      if kind == 2 || kind == 3 {
        SetCursor(0, 0);
      }
    }

    /** Reset on no parameters, else the loop over them. */
    method ApplySgr()
      requires Valid()
      modifies this`curFg, this`curBg, this`bold
      ensures Valid()
      ensures View() == old(View()).(control := old(View().control).(sgr := Apply(csiParams, old(View().control.sgr))))
    {
      ApplyKeepsIndices(csiParams, View().control.sgr);
      if csiParams == [] {
        curFg := None;
        curBg := None;
        bold := false;
      } else {
        SgrLoop();
      }
    }

    /** The loop over the parameters, whose stride depends on what it reads. */
    method SgrLoop()
      modifies this`curFg, this`curBg, this`bold
      ensures Sgr(curFg, curBg, bold) == Fold(csiParams, old(Sgr(curFg, curBg, bold)))
    {
      var i := 0;
      ghost var whole := Fold(csiParams, Sgr(curFg, curBg, bold));
      assert csiParams[0..] == csiParams;
      FoldAtIsFold(csiParams, 0, Sgr(curFg, curBg, bold));
      while i < |csiParams|
        invariant whole == FoldAt(csiParams, i, Sgr(curFg, curBg, bold))
      {
        i := SgrGroup(i);
      }
    }

    /** One turn of the loop: handles the group at `i` and returns where the next starts. */
    method SgrGroup(i: nat) returns (next: nat)
      requires i < |csiParams|
      modifies this`curFg, this`curBg, this`bold
      ensures next == i + Span(csiParams[i..])
      ensures Sgr(curFg, curBg, bold) == Head(csiParams[i..], old(Sgr(curFg, curBg, bold)))
    {
      var p := csiParams[i];
      if p == 38 || p == 48 {
        next := ExtendedColor(i);
      } else {
        BasicCode(p);
        next := i + 1;
      }
    }

    /** The codes of one parameter. */
    method BasicCode(p: u32)
      modifies this`curFg, this`curBg, this`bold
      ensures Sgr(curFg, curBg, bold) == Basic(p, old(Sgr(curFg, curBg, bold)))
    {
      if p == 0 {
        curFg := None;
        curBg := None;
        bold := false;
      } else if p == 1 {
        bold := true;
      } else if p == 22 {
        bold := false;
      } else if 30 <= p <= 37 {
        curFg := Some(p - 30);
      } else if p == 39 {
        curFg := None;
      } else if 40 <= p <= 47 {
        curBg := Some(p - 40);
      } else if p == 49 {
        curBg := None;
      } else if 90 <= p <= 97 {
        curFg := Some(p - 90 + 8);
      } else if 100 <= p <= 107 {
        curBg := Some(p - 100 + 8);
      }
    }

    /** `38;5;N` and `38;2;R;G;B`, and the same with 48. */
    method ExtendedColor(i: nat) returns (next: nat)
      requires i < |csiParams| && IsExtended(csiParams[i])
      modifies this`curFg, this`curBg
      ensures next == i + Span(csiParams[i..])
      ensures Sgr(curFg, curBg, bold) == Head(csiParams[i..], old(Sgr(curFg, curBg, bold)))
    {
      var p := csiParams[i];
      next := i;
      if i + 1 < |csiParams| && csiParams[i + 1] == 5 {
        if i + 2 < |csiParams| {
          SetTarget(p, Ansi256ToRgb(csiParams[i + 2] % 0x100));
        }
        next := next + 2;
      } else if i + 1 < |csiParams| && csiParams[i + 1] == 2 {
        var r := ParamOr0(csiParams, i + 2) % 0x100;
        var g := ParamOr0(csiParams, i + 3) % 0x100;
        var b := ParamOr0(csiParams, i + 4) % 0x100;
        SetTarget(p, Rgb(r, g, b));
        next := next + 4;
      }
      next := next + 1;
    }

    method SetTarget(p: u32, color: u32)
      requires IsExtended(p)
      modifies this`curFg, this`curBg
      ensures Sgr(curFg, curBg, bold) == SetColor(old(Sgr(curFg, curBg, bold)), p, Some(Nearest16(color)))
    {
      var c := NearestScan(color);
      if p == 38 {
        curFg := Some(c);
      } else {
        curBg := Some(c);
      }
    }

    /** The final bytes that move the cursor. */
    method MoveCursor(final: u8)
      requires Valid()
      requires CsiAction(csiParams, final).Forward? || CsiAction(csiParams, final).Backward?
            || CsiAction(csiParams, final).Column? || CsiAction(csiParams, final).Position?
      modifies this`cursorRow, this`cursorCol
      ensures Valid()
      ensures View() == old(View()).(grid := Perform(old(View().grid), CsiAction(csiParams, final)))
    {
      var n := CsiParam(0, 1);
      if final == 'C' as int {
        SetCursor(cursorRow, Min(cursorCol + n, cols - 1));
      } else if final == 'D' as int {
        SetCursor(cursorRow, Max(cursorCol - n, 0));
      } else if final == 'G' as int {
        SetCursor(cursorRow, Min(Max(n - 1, 0), cols - 1));
      } else {
        var col := CsiParam(1, 1);
        SetCursor(Min(Max(n - 1, 0), rows - 1), Min(Max(col - 1, 0), cols - 1));
      }
    }

    /** The CSI final bytes that act; every other one is ignored. */
    method ApplyCsi(final: u8)
      requires Valid()
      modifies this`cursorRow, this`cursorCol, this`lines, this`curFg, this`curBg, this`bold, cells
      ensures Valid()
      ensures View() == old(View()).(
        grid := Perform(old(View().grid), CsiAction(csiParams, final)),
        control := old(View().control).(
          sgr := if final == 'm' as int then Apply(csiParams, old(View().control.sgr)) else old(View().control.sgr)))
    {
      if final == 'K' as int {
        EraseInLine(CsiParam(0, 0));
      } else if final == 'J' as int {
        EraseInDisplay(CsiParam(0, 0));
      } else if final == 'C' as int || final == 'D' as int || final == 'G' as int
             || final == 'H' as int || final == 'f' as int {
        MoveCursor(final);
      } else if final == 'm' as int {
        ApplySgr();
      }
    }

    /** Prints spaces up to the next tab stop or the last column. */
    method Tab()
      requires Valid()
      modifies this`cursorRow, this`cursorCol, this`lines, cells
      ensures Valid()
      ensures View() == old(View()).(grid := Tabbed(old(View().grid), Inked(SPACE, old(View().control.sgr))))
    {
      var next := (cursorCol / 8 + 1) * 8;
      ghost var g := View().grid;
      ghost var cell := Inked(SPACE, View().control.sgr);
      assert Painted(g.cells[g.row], g.col, g.col, cell) == g.cells[g.row];
      assert g.cells[g.row := g.cells[g.row]] == g.cells;
      while cursorCol < next && cursorCol < cols
        invariant Valid() && cells == old(cells)
        invariant g.col <= cursorCol && cursorCol <= Max(g.col, Min(next, cols))
        invariant View() == old(View()).(grid := PaintedTo(g, cursorCol, cell))
      {
        PaintOneMore(g, cursorCol, cell);
        Put(SPACE);
      }
    }

    /** A byte outside every escape sequence. */
    method GroundByte(b: u8)
      requires Valid() && esc == Ground
      modifies this`cursorRow, this`cursorCol, this`lines, this`esc, cells
      ensures Valid()
      ensures View() == Term(Step(old(View().control), b),
                             Perform(old(View().grid), ActionOf(old(View().control), b)), dirty)
    {
      if b == LF {
        Newline();
      } else if b == CR {
        SetCursor(cursorRow, 0);
      } else if b == TAB {
        Tab();
      } else if b == BS || b == DEL {
        if cursorCol > 0 {
          SetCursor(cursorRow, cursorCol - 1);
        }
      } else if b == ESC {
        esc := Escape;
      } else if 0x20 <= b <= 0x7e {
        Put(b);
      }
    }

    /** A byte of a control sequence. */
    method CsiByte(b: u8)
      requires Valid() && esc == Csi
      modifies this`cursorRow, this`cursorCol, this`lines, this`curFg, this`curBg, this`bold, this`esc,
               this`csiParams, this`csiCur, cells
      ensures Valid()
      ensures View() == Term(Step(old(View().control), b),
                             Perform(old(View().grid), ActionOf(old(View().control), b)), dirty)
    {
      if 0x30 <= b <= 0x39 {
        var cur := if csiCur.Some? then csiCur.value else 0;
        csiCur := Some((cur * 10 + (b - 0x30)) % WRAP);
      } else if b == ';' as int {
        csiParams := csiParams + [if csiCur.Some? then csiCur.value else 0];
        csiCur := None;
      } else if 0x40 <= b <= 0x7e {
        if csiCur.Some? {
          csiParams := csiParams + [csiCur.value];
          csiCur := None;
        }
        ApplyCsi(b);
        esc := Ground;
      }
    }

    /** One byte from the shell. The fused code here is the control automaton and
        the screen it drives, run side by side. */
    method ProcessByte(b: u8)
      requires Valid()
      modifies this`cursorRow, this`cursorCol, this`lines, this`curFg, this`curBg, this`bold, this`esc,
               this`csiParams, this`csiCur, this`dirty, cells
      ensures Valid()
      ensures View() == Feed(old(View()), b)
    {
      dirty := true;
      match esc
      case Ground =>
        GroundByte(b);
      case Escape =>
        if b == '[' as int {
          csiParams := [];
          csiCur := None;
          esc := Csi;
        } else if b == ']' as int {
          esc := Osc;
        } else if b == 'P' as int {
          esc := Dcs;
        } else if b == '(' as int || b == ')' as int || b == '*' as int || b == '+' as int {
          esc := Charset;
        } else {
          esc := Ground;
        }
      case Csi =>
        CsiByte(b);
      case Osc =>
        if b == BEL {
          esc := Ground;
        } else if b == ESC {
          esc := OscEsc;
        }
      case OscEsc =>
        esc := if b == BACKSLASH then Ground else Osc;
      case Dcs =>
        if b == ESC {
          esc := DcsEsc;
        }
      case DcsEsc =>
        esc := if b == BACKSLASH then Ground else Dcs;
      case Charset =>
        esc := Ground;
    }

    /** A batch of bytes. */
    method ProcessBytes(bytes: seq<u8>)
      requires Valid()
      modifies this, cells
      ensures Valid() && cells == old(cells)
      ensures View() == FeedAll(old(View()), bytes)
    {
      for i := 0 to |bytes|
        invariant Valid() && cells == old(cells)
        invariant View() == FeedAll(old(View()), bytes[..i])
      {
        assert bytes[..i + 1] == bytes[..i] + [bytes[i]];
        FeedAppend(old(View()), bytes[..i], [bytes[i]]);
        ProcessByte(bytes[i]);
      }
      assert bytes[..|bytes|] == bytes;
    }

    /** Draws the whole grid into a mapped framebuffer and clears the flag. */
    method Render(buf: array<u8>, pitch: nat, width: nat, f: Font)
      requires Valid() && FontOk(f)
      requires GridFits(buf.Length, pitch, f, cols, lines)
      modifies this`dirty, buf
      ensures Valid()
      ensures View() == old(View()).(dirty := false)
      ensures buf[..] == Rendered(old(buf[..]), pitch, width, lines, f)
    {
      ghost var orig := buf[..];
      ghost var v := Canvas(buf.Length, pitch, width, lines, f);
      Clear(buf, pitch, width);
      StartPainting(buf, orig, v);
      for r := 0 to rows
        invariant Painting(buf, orig, pitch, PartialPaint(v, r, 0))
      {
        DrawRow(buf, pitch, f, r, orig, v);
        NextRowPainting(buf, orig, v, cols, r);
      }
      FinishPainting(buf, orig, v);
      dirty := false;
    }

    /** The cells of row `r`. */
    method DrawRow(buf: array<u8>, pitch: nat, f: Font, r: nat, ghost orig: seq<u8>, ghost v: Canvas)
      requires Valid() && r < rows
      requires CanvasOk(v) && v.len == buf.Length && v.pitch == pitch && v.font == f && v.cells == lines
      requires GridFits(buf.Length, pitch, f, cols, lines)
      requires Painting(buf, orig, pitch, PartialPaint(v, r, 0))
      modifies buf
      ensures Painting(buf, orig, pitch, PartialPaint(v, r, cols))
    {
      for c := 0 to cols
        invariant Painting(buf, orig, pitch, PartialPaint(v, r, c))
      {
        assert HeldAt(cells[..], cols, lines, r, c);
        DrawCell(buf, pitch, f, cells[r * cols + c], r, c, orig, v, cols);
      }
    }
  }

  lemma StartPainting(buf: array<u8>, orig: seq<u8>, v: Canvas)
    requires CanvasOk(v) && Painting(buf, orig, v.pitch, Cleared(v.len, v.pitch, v.width))
    ensures Painting(buf, orig, v.pitch, PartialPaint(v, 0, 0))
  {
    SamePaint(buf, orig, v.pitch, Cleared(v.len, v.pitch, v.width), PartialPaint(v, 0, 0));
  }

  lemma NextRowPainting(buf: array<u8>, orig: seq<u8>, v: Canvas, cols: nat, r: nat)
    requires CanvasOk(v) && r < |v.cells| && |v.cells[r]| == cols
    requires Painting(buf, orig, v.pitch, PartialPaint(v, r, cols))
    ensures Painting(buf, orig, v.pitch, PartialPaint(v, r + 1, 0))
  {
    SamePaint(buf, orig, v.pitch, PartialPaint(v, r, cols), PartialPaint(v, r + 1, 0));
  }

  lemma FinishPainting(buf: array<u8>, orig: seq<u8>, v: Canvas)
    requires CanvasOk(v) && v.len == |orig|
    requires Painting(buf, orig, v.pitch, PartialPaint(v, |v.cells|, 0))
    ensures buf[..] == Rendered(orig, v.pitch, v.width, v.cells, v.font)
  {
    var p := PicturePaint(v);
    forall k | 0 <= k < |orig|
      ensures buf[k] == Overlaid(orig, v.pitch, p)[k]
    {
      assert Overlaid(orig, v.pitch, p)[k] == PaintedByte(orig, v.pitch, p, k);
    }
  }

  /** `g` with the cells from its cursor up to column `to` painted and the cursor there. */
  ghost function PaintedTo(g: Grid, to: nat, cell: Cell): Grid
    requires Shaped(g)
  {
    g.(cells := g.cells[g.row := Painted(g.cells[g.row], g.col, to, cell)], col := to)
  }

  lemma PaintOneMore(g: Grid, to: nat, cell: Cell)
    requires Shaped(g) && g.col <= to < g.cols
    ensures Screen.Put(PaintedTo(g, to, cell), cell) == PaintedTo(g, to + 1, cell)
  {
    var line := g.cells[g.row];
    assert Painted(line, g.col, to, cell)[to := cell] == Painted(line, g.col, to + 1, cell);
  }
}
