/** What each kind of byte sequence does to a terminal, in terms of the bytes on the wire
    and the cells on the screen. */
module Wire {
  import opened Primitives
  import opened SgrState
  import opened Control
  import opened ControlLaws
  import opened CsiParameters
  import opened SgrStreams
  import opened Screen
  import opened TerminalSpec
  import opened Repaint

  predicate AtRest(t: Term) {
    Shaped(t.grid) && t.control.mode == Ground
  }

  // ----- Single bytes -----

  /** A byte other than ESC performs the action it requests. */
  lemma Requests(t: Term, b: u8, a: Action)
    requires AtRest(t) && b != ESC && ActionOf(t.control, b) == a
    ensures FeedAll(t, [b]) == Term(t.control, Perform(t.grid, a), true)
  {
    assert [b][1..] == [];
    assert FeedAll(t, [b]) == Feed(t, b);
  }

  /** A carriage return moves to column 0. */
  lemma Returns(t: Term)
    requires AtRest(t)
    ensures FeedAll(t, [0x0d]) == Term(t.control, t.grid.(col := 0), true)
  {
    Requests(t, 0x0d, CarriageReturn);
  }

  /** Backspace and delete move one column back. */
  lemma StepsBack(t: Term, b: u8)
    requires AtRest(t) && (b == 0x08 || b == 0x7f)
    ensures FeedAll(t, [b]) == Term(t.control, t.grid.(col := if t.grid.col == 0 then 0 else t.grid.col - 1), true)
  {
    BackspaceSteps(t.grid);
    Requests(t, b, Backspace);
  }

  lemma BackspaceSteps(g: Grid)
    requires Shaped(g)
    ensures Perform(g, Backspace) == g.(col := if g.col == 0 then 0 else g.col - 1)
  {
  }

  /** A line feed moves to column 0 of the next row; on the last row the others move up
      and a row of spaces in default colours appears. */
  lemma LineFeeds(t: Term, r: nat)
    requires AtRest(t) && r < t.grid.rows
    ensures var g, u := t.grid, FeedAll(t, [0x0a]); var last := g.rows - 1;
      && u == Term(t.control, g.(cells := u.grid.cells, row := Min(g.row + 1, last), col := 0), true)
      && (g.row < last ==> u.grid.cells == g.cells)
      && (g.row == last && r < last ==> u.grid.cells[r] == g.cells[r + 1])
      && (g.row == last && r == last ==> u.grid.cells[r] == seq(g.cols, _ => Cell(0x20, None, None)))
  {
    Requests(t, 0x0a, LineFeed);
  }

  lemma WrapIsLineFeed(g: Grid, cell: Cell)
    requires Shaped(g) && g.col == g.cols
    ensures Shaped(NewLine(g)) && Put(g, cell) == Put(NewLine(g), cell)
  {
  }

  /** The cell that a printable character leaves in colour state `s`: bold turns the dark
      half of the palette into the bright half. */
  function Ink(ch: u8, s: Sgr): Cell {
    Cell(ch, if s.fg.Some? && s.fg.value < 8 && s.bold then Some(s.fg.value + 8) else s.fg, s.bg)
  }

  lemma InkedIsInk(ch: u8, s: Sgr)
    requires SgrOk(s)
    ensures Inked(ch, s) == Ink(ch, s)
  {
  }

  /** A printable character goes to the cursor, which moves right. */
  lemma Prints(t: Term, b: u8)
    requires AtRest(t) && SgrOk(t.control.sgr) && 0x20 <= b <= 0x7e && t.grid.col < t.grid.cols
    ensures var g := t.grid;
      FeedAll(t, [b]) == Term(t.control, SetCell(g, g.row, g.col, Ink(b, t.control.sgr)).(col := g.col + 1), true)
  {
    InkedIsInk(b, t.control.sgr);
    Requests(t, b, Print(Ink(b, t.control.sgr)));
  }

  /** With a wrap pending a line feed comes first. */
  lemma WrapsFirst(t: Term, b: u8)
    requires AtRest(t) && 0x20 <= b <= 0x7e && t.grid.col == t.grid.cols
    ensures FeedAll(t, [b]) == FeedAll(FeedAll(t, [0x0a]), [b])
  {
    var cell := Inked(b, t.control.sgr);
    Requests(t, b, Print(cell));
    Requests(t, 0x0a, LineFeed);
    WrapIsLineFeed(t.grid, cell);
    Requests(Term(t.control, NewLine(t.grid), true), b, Print(cell));
  }

  /** `stop` is the next multiple of eight to the right of `col`, or the end of the line. */
  predicate IsStop(col: nat, stop: nat, cols: nat) {
    && col < stop <= cols
    && (stop % 8 == 0 || stop == cols)
    && forall c :: col < c < stop ==> c % 8 != 0
  }

  lemma TabStopIsStop(col: nat, cols: nat)
    requires col < cols
    ensures IsStop(col, TabStop(col, cols), cols)
  {
    forall c | col < c < TabStop(col, cols)
      ensures c % 8 != 0
    {
      assert c / 8 == col / 8;
    }
  }

  /** The grid `h` is `g` with `cell` from the cursor to the next stop, and the cursor there. */
  ghost predicate TabsTo(g: Grid, h: Grid, cell: Cell)
    requires Shaped(g) && g.col < g.cols
  {
    && IsStop(g.col, h.col, g.cols) && |h.cells| == g.rows && |h.cells[g.row]| == g.cols
    && h == g.(cells := g.cells[g.row := h.cells[g.row]], col := h.col)
    && forall c :: 0 <= c < g.cols ==>
         h.cells[g.row][c] == if g.col <= c < h.col then cell else g.cells[g.row][c]
  }

  lemma TabbedTabs(g: Grid, cell: Cell)
    requires Shaped(g) && g.col < g.cols
    ensures TabsTo(g, Tabbed(g, cell), cell)
  {
    TabStopIsStop(g.col, g.cols);
  }

  /** A tab goes to the next multiple of eight or past the last column, writing spaces on
      the way. */
  lemma Tabs(t: Term)
    requires AtRest(t) && SgrOk(t.control.sgr)
    ensures var g, u := t.grid, FeedAll(t, [0x09]);
      && u == Term(t.control, u.grid, true)
      && (g.col == g.cols ==> u.grid == g)
      && (g.col < g.cols ==> TabsTo(g, u.grid, Ink(0x20, t.control.sgr)))
  {
    var cell := Inked(0x20, t.control.sgr);
    assert cell == Ink(0x20, t.control.sgr);
    Requests(t, 0x09, Tabulate(cell));
    if t.grid.col < t.grid.cols {
      TabbedTabs(t.grid, cell);
    }
  }

  /** All other bytes do nothing. */
  lemma OtherBytes(t: Term, b: u8)
    requires AtRest(t) && b !in {0x08, 0x09, 0x0a, 0x0d, 0x1b} && !(0x20 <= b <= 0x7f)
    ensures FeedAll(t, [b]) == t.(dirty := true)
  {
    Requests(t, b, Nothing);
  }

  // ----- Escapes of two and three bytes -----

  /** ESC and one of `( ) * +` swallow exactly one more byte. */
  lemma CharsetSwallowsOne(t: Term, d: u8, b: u8)
    requires AtRest(t) && 0x28 <= d <= 0x2b
    ensures FeedAll(t, [0x1b, d, b]) == t.(dirty := true)
  {
    assert [0x1b, d, b][1..] == [d, b] && [d, b][1..] == [b] && [b][1..] == [];
    var t1 := Feed(t, 0x1b);
    var t2 := Feed(t1, d);
    assert FeedAll(t2, [b]) == Feed(t2, b);
    assert FeedAll(t1, [d, b]) == FeedAll(t2, [b]);
  }

  /** ESC and any byte that introduces nothing are ignored together. */
  lemma OtherEscapes(t: Term, d: u8)
    requires AtRest(t) && d !in {0x5b, 0x5d, 0x50} && !(0x28 <= d <= 0x2b)
    ensures FeedAll(t, [0x1b, d]) == t.(dirty := true)
  {
    assert [0x1b, d][1..] == [d] && [d][1..] == [];
    assert FeedAll(Feed(t, 0x1b), [d]) == Feed(Feed(t, 0x1b), d);
  }

  // ----- Control strings -----

  /** ESC P enters a device control string and ESC ] an operating system command. */
  lemma Introduces(s: State, intro: u8)
    requires s.mode == Ground && (intro == 0x50 || intro == 0x5d)
    ensures Run(s, [0x1b, intro]) == s.(mode := BodyMode(intro == 0x5d))
    ensures Actions(s, [0x1b, intro]) == [Nothing, Nothing]
  {
    Run2(s, ESC, intro);
    assert [ESC, intro][1..] == [intro] && [intro][1..] == [];
    assert Actions(Step(s, ESC), [intro]) == [Nothing];
  }

  /** From its introducer to the byte that closes it a control string leaves screen and
      colours alone, and the parser as it was. Only ESC `\`, with an odd run of ESC, and
      for ESC ] also BEL, close it. */
  lemma ControlStringOnTheWire(t: Term, intro: u8, body: seq<u8>, n: nat)
    requires AtRest(t) && (intro == 0x50 || intro == 0x5d) && n < |body|
    requires Closes(body, n, intro == 0x5d) && NoneCloses(body, n, intro == 0x5d)
    ensures FeedAll(t, [0x1b, intro] + body[..n + 1]) == t.(dirty := true)
  {
    var s, bell := t.control, intro == 0x5d;
    var inside := s.(mode := BodyMode(bell));
    var head, tail := [0x1b, intro], body[..n + 1];
    Introduces(s, intro);
    StringSwallowed(inside, body, n, bell);
    RunAppend(s, head, tail);
    QuietBytes(t, head + tail);
  }

  lemma StringSwallowed(s: State, body: seq<u8>, n: nat, bell: bool)
    requires s.mode == BodyMode(bell) && n < |body| && Closes(body, n, bell) && NoneCloses(body, n, bell)
    ensures Run(s, body[..n + 1]) == s.(mode := Ground)
    ensures var acts := Actions(s, body[..n + 1]); forall i :: 0 <= i <= n ==> acts[i] == Nothing
  {
    StringEndsExactlyAt(body, n, bell);
    StringIsSwallowedExactly(s, body, bell);
    assert body == body[..n + 1] + body[n + 1..];
    RunAppend(s, body[..n + 1], body[n + 1..]);
    var acts := Actions(s, body[..n + 1]);
    assert forall i :: 0 <= i <= n ==> acts[i] == Actions(s, body)[i];
  }

  /** A string that nothing closes swallows everything. */
  lemma OpenStringOnTheWire(t: Term, intro: u8, body: seq<u8>)
    requires AtRest(t) && (intro == 0x50 || intro == 0x5d) && NoneCloses(body, |body|, intro == 0x5d)
    ensures var u := FeedAll(t, [0x1b, intro] + body);
      u.grid == t.grid && u.control == t.control.(mode := u.control.mode) && u.control.mode != Ground
  {
    var s, bell := t.control, intro == 0x5d;
    var inside := s.(mode := BodyMode(bell));
    Introduces(s, intro);
    UnclosedIsOpen(body, bell);
    StringIsSwallowedExactly(inside, body, bell);
    assert body[..|body|] == body;
    RunAppend(s, [0x1b, intro], body);
    QuietBytes(t, [0x1b, intro] + body);
  }

  lemma UnclosedIsOpen(body: seq<u8>, bell: bool)
    requires NoneCloses(body, |body|, bell)
    ensures Read(body, bell).Open?
  {
    var r := Read(body, bell);
    ReadSpells(body, bell);
    ReadIsWell(body, bell);
    if r.Ended? {
      StringEndsExactlyAt(body, Extent(r) - 1, bell);
    }
  }

  // ----- Control sequences -----

  /** A control sequence goes on until a byte from `@` to `~`. */
  lemma FinalBytes(s: State, b: u8)
    requires s.mode == Csi
    ensures Step(s, b).mode == Ground <==> 0x40 <= b <= 0x7e
    ensures Step(s, b).mode == Csi <==> !(0x40 <= b <= 0x7e)
  {
  }

  /** Parameter `i`, where an absent one and zero both count as one. */
  function Count(ps: seq<u32>, i: nat): nat {
    if i >= |ps| || ps[i] == 0 then 1 else ps[i]
  }

  /** The grid after a cursor sequence: right, left, to a column, to a place. */
  function Moved(g: Grid, ps: seq<u32>, final: u8): Grid
    requires Shaped(g)
  {
    var n, m := Count(ps, 0), Count(ps, 1);
    var right, bottom := g.cols - 1, g.rows - 1;
    if final == 0x43 then g.(col := if g.col + n > right then right else g.col + n)
    else if final == 0x44 then g.(col := if g.col < n then 0 else g.col - n)
    else if final == 0x47 then g.(col := if n - 1 > right then right else n - 1)
    else g.(row := if n - 1 > bottom then bottom else n - 1, col := if m - 1 > right then right else m - 1)
  }

  lemma MovedByAction(g: Grid, ps: seq<u32>, final: u8)
    requires Shaped(g) && final in {0x43, 0x44, 0x47, 0x48, 0x66}
    ensures Perform(g, CsiAction(ps, final)) == Moved(g, ps, final)
  {
  }

  /** What any sequence but SGR leaves: its parameters, and the colours as they were. */
  function Settled(s: State, ps: seq<u32>): State {
    State(Ground, ps, None, s.sgr)
  }

  /** CUF, CUB, CHA, CUP and HVP, with any parameters. */
  lemma CursorSequences(t: Term, ps: seq<u32>, final: u8)
    requires AtRest(t) && final in {0x43, 0x44, 0x47, 0x48, 0x66}
    ensures FeedAll(t, [0x1b, 0x5b] + Written(ps) + [final])
         == Term(Settled(t.control, ps), Moved(t.grid, ps, final), true)
  {
    Performed(t, ps, final);
    MovedByAction(t.grid, ps, final);
  }

  function Kind(ps: seq<u32>): u32 {
    if ps == [] then 0 else ps[0]
  }

  /** The grid `h` is `g` but for the cells that satisfy the test, which are blank, and
      perhaps for the cursor. */
  ghost predicate Blanks(g: Grid, h: Grid, test: (nat, nat) -> bool)
    requires Shaped(g)
  {
    && h == g.(cells := h.cells, row := h.row, col := h.col) && Shaped(h)
    && forall r: nat, c: nat :: r < g.rows && c < g.cols ==>
         h.cells[r][c] == if test(r, c) then Cell(0x20, None, None) else g.cells[r][c]
  }

  /** On the cursor's row: from the cursor, up to it, or all. */
  function InLine(g: Grid, kind: u32): (nat, nat) -> bool {
    (r, c) => r == g.row && ((kind == 0 && c >= g.col) || (kind == 1 && c <= g.col) || kind == 2)
  }

  /** In reading order: from the cursor to the end, from the start to the cursor, or all. */
  function InDisplay(g: Grid, kind: u32): (nat, nat) -> bool {
    (r: nat, c: nat) =>
      var here, at := r * g.cols + c, g.row * g.cols + g.col;
      (kind == 0 && here >= at) || (kind == 1 && here <= at) || kind == 2 || kind == 3
  }

  lemma LineBlanked(g: Grid, ps: seq<u32>)
    requires Shaped(g)
    ensures var h := Perform(g, CsiAction(ps, 0x4b));
      Blanks(g, h, InLine(g, Kind(ps))) && h.row == g.row && h.col == g.col
  {
    assert CsiAction(ps, 0x4b) == EraseLine(Kind(ps));
  }

  lemma DisplayBlanked(g: Grid, ps: seq<u32>)
    requires Shaped(g)
    ensures var h := Perform(g, CsiAction(ps, 0x4a)); var all := Kind(ps) == 2 || Kind(ps) == 3;
      && Blanks(g, h, InDisplay(g, Kind(ps)))
      && h.row == (if all then 0 else g.row) && h.col == (if all then 0 else g.col)
  {
    var k := Kind(ps);
    assert CsiAction(ps, 0x4a) == EraseDisplay(k);
    var h := Perform(g, EraseDisplay(k));
    forall r: nat, c: nat | r < g.rows && c < g.cols
      ensures h.cells[r][c] == if InDisplay(g, k)(r, c) then Cell(0x20, None, None) else g.cells[r][c]
    {
      ErasedInOrder(g, k, r, c);
    }
  }

  lemma ErasedInOrder(g: Grid, kind: u32, r: nat, c: nat)
    requires Shaped(g) && r < g.rows && c < g.cols
    ensures DisplayErased(g, kind, r, c) <==> InDisplay(g, kind)(r, c)
  {
    FlatOrder(g, r, c);
  }

  /** EL. */
  lemma EraseInLineOnTheWire(t: Term, ps: seq<u32>)
    requires AtRest(t)
    ensures var g, u := t.grid, FeedAll(t, [0x1b, 0x5b] + Written(ps) + [0x4b]); var h := u.grid;
      && u == Term(Settled(t.control, ps), h, true)
      && Blanks(g, h, InLine(g, Kind(ps))) && h.row == g.row && h.col == g.col
  {
    Performed(t, ps, 0x4b);
    LineBlanked(t.grid, ps);
  }

  /** ED; erasing all of the display also brings the cursor home. */
  lemma EraseInDisplayOnTheWire(t: Term, ps: seq<u32>)
    requires AtRest(t)
    ensures var g, u := t.grid, FeedAll(t, [0x1b, 0x5b] + Written(ps) + [0x4a]); var h := u.grid;
      var all := Kind(ps) == 2 || Kind(ps) == 3;
      && u == Term(Settled(t.control, ps), h, true)
      && Blanks(g, h, InDisplay(g, Kind(ps)))
      && h.row == (if all then 0 else g.row) && h.col == (if all then 0 else g.col)
  {
    Performed(t, ps, 0x4a);
    DisplayBlanked(t.grid, ps);
  }

  /** Reading order and the flat index agree, also for a cursor past the last column. */
  lemma FlatOrder(g: Grid, r: nat, c: nat)
    requires Shaped(g) && r < g.rows && c < g.cols
    ensures var here, at := r * g.cols + c, g.row * g.cols + g.col;
      && (here >= at <==> r > g.row + 1 || (r == g.row + 1 && c + g.cols >= g.col) || (r == g.row && c >= g.col))
      && (here <= at <==> r < g.row || (r == g.row && c <= g.col) || (r == g.row + 1 && c + g.cols <= g.col))
  {
    var k := g.cols;
    assert (g.row + 1) * k == g.row * k + k && (g.row + 2) * k == g.row * k + k + k;
    if r < g.row {
      MulLe(k, r + 1, g.row);
      assert (r + 1) * k == r * k + k;
    } else if r > g.row + 1 {
      MulLe(k, g.row + 2, r);
    }
  }

  /** The other sequences, but for SGR, do nothing. */
  lemma OtherSequences(t: Term, ps: seq<u32>, final: u8)
    requires AtRest(t) && 0x40 <= final <= 0x7e
    requires final !in {0x43, 0x44, 0x47, 0x48, 0x4a, 0x4b, 0x66, 0x6d}
    ensures FeedAll(t, [0x1b, 0x5b] + Written(ps) + [final])
         == Term(Settled(t.control, ps), t.grid, true)
  {
    Performed(t, ps, final);
    assert CsiAction(ps, final) == Nothing;
  }

  // ----- Colours -----

  /** After `ESC[1;3Nm` and `ESC[1;9Nm` a character is printed in colour N + 8. */
  lemma BoldBrightens(t: Term, n: u32, base: u32, b: u8)
    requires AtRest(t) && SgrOk(t.control.sgr) && t.grid.col < t.grid.cols && 0x20 <= b <= 0x7e
    requires n < 8 && (base == 30 || base == 90)
    ensures var g, u := t.grid, FeedAll(FeedAll(t, [0x1b, 0x5b] + Written([1, base + n]) + [0x6d]), [b]);
      u.grid == SetCell(g, g.row, g.col, Cell(b, Some(n + 8), t.control.sgr.bg)).(col := g.col + 1)
  {
    BoldColor(t.control.sgr, n, base);
    SgrSequence(t, [1, base + n]);
    Prints(FeedAll(t, SgrBytes([1, base + n])), b);
  }

  lemma BoldColor(s: Sgr, n: u32, base: u32)
    requires n < 8 && (base == 30 || base == 90)
    ensures Apply([1, base + n], s) == Sgr(Some(if base == 30 then n else n + 8), s.bg, true)
  {
    FoldOne(1, [base + n], s);
    assert [1] + [base + n] == [1, base + n];
    PlainCodes(s.(bold := true), n);
  }

  // ----- Changes of size -----

  /** A change of size leaves a blank screen with the cursor home, of at least one cell,
      and the parser as it was; asking for the present size changes nothing. */
  lemma Resizes(t: Term, cols: nat, rows: nat, r: nat, c: nat)
    requires Shaped(t.grid)
    ensures ResizeTerm(t, t.grid.cols, t.grid.rows) == t
    ensures var u := ResizeTerm(t, cols, rows); var g := u.grid;
      cols != t.grid.cols || rows != t.grid.rows ==>
        && u == Term(t.control, g, true) && g.row == 0 && g.col == 0
        && g.cols == (if cols == 0 then 1 else cols) && g.rows == (if rows == 0 then 1 else rows)
        && |g.cells| == g.rows
        && (r < g.rows && c < g.cols ==> |g.cells[r]| == g.cols && g.cells[r][c] == Cell(0x20, None, None))
  {
  }

  /** A new terminal is blank, home, in ground state and in default colours. */
  lemma Begins(cols: nat, rows: nat, r: nat, c: nat)
    requires r < rows && c < cols
    ensures var t := Fresh(cols, rows);
      && t.control == State(Ground, [], None, Sgr(None, None, false)) && t.dirty
      && t.grid == Grid(cols, rows, t.grid.cells, 0, 0) && |t.grid.cells| == rows
      && |t.grid.cells[r]| == cols && t.grid.cells[r][c] == Cell(0x20, None, None)
  {
  }
}
