/** What a scrolling terminal shows: the end of an unbounded document. */
module Document {
  import opened Primitives
  import opened SgrState
  import opened Control
  import opened Screen
  import opened TerminalSpec

  /** Lines of any length up to the page width; the cursor is on the last one. */
  datatype Doc = Doc(lines: seq<seq<Cell>>, col: nat)

  const EMPTY := Doc([[]], 0)

  predicate DocOk(d: Doc, cols: nat) {
    && 1 <= cols
    && d.lines != []
    && (forall i :: 0 <= i < |d.lines| ==> |d.lines[i]| <= cols)
    && d.col <= |LastLine(d)|
  }

  function LastLine(d: Doc): seq<Cell>
    requires d.lines != []
  {
    d.lines[|d.lines| - 1]
  }

  function WithLastLine(d: Doc, line: seq<Cell>, col: nat): Doc
    requires d.lines != []
  {
    Doc(d.lines[|d.lines| - 1 := line], col)
  }

  function Break(d: Doc): Doc {
    Doc(d.lines + [[]], 0)
  }

  /** Overwrites columns `from` up to `to`, lengthening the line if need be. */
  function Over(line: seq<Cell>, from: nat, to: nat, cell: Cell): seq<Cell>
    requires from <= |line|
  {
    seq(Max(|line|, to), c requires 0 <= c < Max(|line|, to) => if from <= c < to then cell else line[c])
  }

  function Write(d: Doc, to: nat, cell: Cell): Doc
    requires d.lines != [] && d.col <= |LastLine(d)|
  {
    WithLastLine(d, Over(LastLine(d), d.col, to, cell), to)
  }

  /** The actions of text that only flows: no cursor addressing, no erasing. */
  predicate Flows(a: Action) {
    a.Nothing? || a.Print? || a.LineFeed? || a.CarriageReturn? || a.Tabulate? || a.Backspace?
  }

  predicate AllFlow(acts: seq<Action>) {
    forall i :: 0 <= i < |acts| ==> Flows(acts[i])
  }

  function Compose(d: Doc, cols: nat, a: Action): (e: Doc)
    requires DocOk(d, cols) && Flows(a)
    ensures DocOk(e, cols)
  {
    match a
    case Nothing => d
    case Print(cell) =>
      var e := if d.col >= cols then Break(d) else d;
      Write(e, e.col + 1, cell)
    case LineFeed => Break(d)
    case CarriageReturn => d.(col := 0)
    case Tabulate(cell) => if d.col >= cols then d else Write(d, TabStop(d.col, cols), cell)
    case Backspace => if d.col > 0 then d.(col := d.col - 1) else d
  }

  function ComposeAll(d: Doc, cols: nat, acts: seq<Action>): (e: Doc)
    requires DocOk(d, cols) && AllFlow(acts)
    ensures DocOk(e, cols)
    decreases |acts|
  {
    if acts == [] then d else ComposeAll(Compose(d, cols, acts[0]), cols, acts[1..])
  }

  function Pad(line: seq<Cell>, cols: nat): (row: seq<Cell>)
    ensures |row| == cols
  {
    seq(cols, c => if 0 <= c < |line| then line[c] else BLANK)
  }

  /** The number of lines that have scrolled out of a window of `rows` rows. */
  function Scrolled(d: Doc, rows: nat): nat {
    Max(|d.lines| - rows, 0)
  }

  function WindowRow(d: Doc, cols: nat, i: nat): (row: seq<Cell>)
    ensures |row| == cols
  {
    if i < |d.lines| then Pad(d.lines[i], cols) else BlankRow(cols)
  }

  /** The last `rows` lines, padded on the right and below. */
  function Window(d: Doc, cols: nat, rows: nat): (cells: seq<seq<Cell>>)
    ensures |cells| == rows
    ensures forall r :: 0 <= r < rows ==> cells[r] == WindowRow(d, cols, Scrolled(d, rows) + r)
  {
    seq(rows, r requires 0 <= r < rows => WindowRow(d, cols, Scrolled(d, rows) + r))
  }

  function Shown(d: Doc, cols: nat, rows: nat): (g: Grid)
    requires DocOk(d, cols) && 1 <= rows
    ensures Shaped(g)
    ensures g.row == Min(|d.lines| - 1, rows - 1)
  {
    Grid(cols, rows, Window(d, cols, rows), |d.lines| - 1 - Scrolled(d, rows), d.col)
  }

  lemma BreakShows(d: Doc, cols: nat, rows: nat)
    requires DocOk(d, cols) && 1 <= rows
    ensures NewLine(Shown(d, cols, rows)) == Shown(Break(d), cols, rows)
  {
    var g, h := NewLine(Shown(d, cols, rows)), Shown(Break(d), cols, rows);
    assert Pad([], cols) == BlankRow(cols);
    forall r | 0 <= r < rows
      ensures g.cells[r] == h.cells[r]
    {
    }
  }

  lemma WriteShows(d: Doc, cols: nat, rows: nat, to: nat, cell: Cell)
    requires DocOk(d, cols) && 1 <= rows
    requires d.col <= to <= cols
    ensures DocOk(Write(d, to, cell), cols)
    ensures var g := Shown(d, cols, rows);
      Shown(Write(d, to, cell), cols, rows)
      == g.(cells := g.cells[g.row := Painted(g.cells[g.row], d.col, to, cell)], col := to)
  {
    var g, h := Shown(d, cols, rows), Shown(Write(d, to, cell), cols, rows);
    assert Pad(Over(LastLine(d), d.col, to, cell), cols) == Painted(Pad(LastLine(d), cols), d.col, to, cell);
    var cells := g.cells[g.row := Painted(g.cells[g.row], d.col, to, cell)];
    forall r | 0 <= r < rows
      ensures h.cells[r] == cells[r]
    {
    }
    assert h.cells == cells;
  }

  /** Showing commutes with every action of flowing text. */
  lemma ActionShows(d: Doc, cols: nat, rows: nat, a: Action)
    requires DocOk(d, cols) && 1 <= rows && Flows(a)
    ensures Perform(Shown(d, cols, rows), a) == Shown(Compose(d, cols, a), cols, rows)
  {
    match a
    case Nothing =>
    case Print(cell) =>
      PrintShows(d, cols, rows, cell);
    case LineFeed =>
      BreakShows(d, cols, rows);
    case CarriageReturn =>
      CursorShows(d, cols, rows, 0);
    case Tabulate(cell) =>
      if d.col < cols {
        WriteShows(d, cols, rows, TabStop(d.col, cols), cell);
      }
    case Backspace =>
      if d.col > 0 {
        CursorShows(d, cols, rows, d.col - 1);
      }
  }

  lemma CursorShows(d: Doc, cols: nat, rows: nat, col: nat)
    requires DocOk(d, cols) && 1 <= rows && col <= d.col
    ensures Shown(d, cols, rows).(col := col) == Shown(d.(col := col), cols, rows)
  {
  }

  lemma PrintShows(d: Doc, cols: nat, rows: nat, cell: Cell)
    requires DocOk(d, cols) && 1 <= rows
    ensures Put(Shown(d, cols, rows), cell) == Shown(Compose(d, cols, Print(cell)), cols, rows)
  {
    if d.col >= cols {
      BreakShows(d, cols, rows);
      PrintInLine(Break(d), cols, rows, cell);
    } else {
      PrintInLine(d, cols, rows, cell);
    }
  }

  lemma PrintInLine(d: Doc, cols: nat, rows: nat, cell: Cell)
    requires DocOk(d, cols) && 1 <= rows && d.col < cols
    ensures DocOk(Write(d, d.col + 1, cell), cols)
    ensures Put(Shown(d, cols, rows), cell) == Shown(Write(d, d.col + 1, cell), cols, rows)
  {
    WriteShows(d, cols, rows, d.col + 1, cell);
    var g := Shown(d, cols, rows);
    assert Painted(g.cells[g.row], d.col, d.col + 1, cell) == g.cells[g.row][d.col := cell];
  }

  lemma {:induction false} RunShows(d: Doc, cols: nat, rows: nat, acts: seq<Action>)
    requires DocOk(d, cols) && 1 <= rows && AllFlow(acts)
    ensures PerformAll(Shown(d, cols, rows), acts) == Shown(ComposeAll(d, cols, acts), cols, rows)
    decreases |acts|
  {
    if acts != [] {
      ActionShows(d, cols, rows, acts[0]);
      RunShows(Compose(d, cols, acts[0]), cols, rows, acts[1..]);
    }
  }

  lemma EmptyShows(cols: nat, rows: nat)
    requires 1 <= cols && 1 <= rows
    ensures Shown(EMPTY, cols, rows) == BlankGrid(cols, rows)
  {
    assert Pad([], cols) == BlankRow(cols);
    assert Window(EMPTY, cols, rows) == BlankCells(cols, rows);
  }

  /** From a blank screen, any stream whose sequences address and erase nothing shows
      the last `rows` lines of the document it composes, and the document does not
      depend on `rows`. */
  lemma ScreenShowsDocument(s: State, bytes: seq<u8>, cols: nat, rows: nat)
    requires 1 <= cols && 1 <= rows
    requires AllFlow(Actions(s, bytes))
    ensures FeedAll(Term(s, BlankGrid(cols, rows), true), bytes).grid
         == Shown(ComposeAll(EMPTY, cols, Actions(s, bytes)), cols, rows)
  {
    FeedFactors(Term(s, BlankGrid(cols, rows), true), bytes);
    EmptyShows(cols, rows);
    RunShows(EMPTY, cols, rows, Actions(s, bytes));
  }

  /** Without escapes every stream flows. */
  lemma {:induction false} EscapeFreeFlows(s: State, bytes: seq<u8>)
    requires s.mode == Ground && ESC !in bytes
    ensures AllFlow(Actions(s, bytes)) && Run(s, bytes) == s
    decreases |bytes|
  {
    if bytes != [] {
      assert forall b :: b in bytes[1..] ==> b in bytes;
      EscapeFreeFlows(s, bytes[1..]);
    }
  }

  // ----- Escape-free text, byte by byte -----

  /** One character goes over what stands in its column, on a new line if this is full. */
  function Strike(d: Doc, cols: nat, cell: Cell): (e: Doc)
    requires DocOk(d, cols)
    ensures DocOk(e, cols)
  {
    var e := if d.col == cols then Break(d) else d;
    Write(e, e.col + 1, cell)
  }

  /** Spaces one by one until the column is a multiple of eight or the line is full. */
  function Spaces(d: Doc, cols: nat, cell: Cell): (e: Doc)
    requires DocOk(d, cols)
    ensures DocOk(e, cols)
    decreases cols - d.col
  {
    if d.col == cols then d
    else
      var e := Strike(d, cols, cell);
      if e.col % 8 == 0 then e else Spaces(e, cols, cell)
  }

  /** What one byte other than ESC does to a document: LF breaks the line, CR returns to
      its start, BS and DEL step back, TAB and the printable characters write. */
  function Type(d: Doc, cols: nat, s: Sgr, b: u8): (e: Doc)
    requires DocOk(d, cols)
    ensures DocOk(e, cols)
  {
    if b == 0x0a then Break(d)
    else if b == 0x0d then d.(col := 0)
    else if b == 0x08 || b == 0x7f then (if d.col == 0 then d else d.(col := d.col - 1))
    else if b == 0x09 then Spaces(d, cols, Inked(0x20, s))
    else if 0x20 <= b < 0x7f then Strike(d, cols, Inked(b, s))
    else d
  }

  function TypeAll(d: Doc, cols: nat, s: Sgr, bytes: seq<u8>): (e: Doc)
    requires DocOk(d, cols)
    ensures DocOk(e, cols)
    decreases |bytes|
  {
    if bytes == [] then d else TypeAll(Type(d, cols, s, bytes[0]), cols, s, bytes[1..])
  }

  /** The stop is the first multiple of eight to the right. */
  lemma TabStopAhead(col: nat, cols: nat)
    requires col < cols
    ensures col < TabStop(col, cols) <= cols
    ensures col + 1 == TabStop(col, cols) <==> (col + 1) % 8 == 0 || col + 1 == cols
    ensures (col + 1) % 8 != 0 && col + 1 < cols ==> TabStop(col + 1, cols) == TabStop(col, cols)
  {
  }

  lemma WriteOn(d: Doc, cols: nat, to: nat, cell: Cell)
    requires DocOk(d, cols) && d.col < to <= cols
    ensures DocOk(Write(d, d.col + 1, cell), cols)
    ensures Write(Write(d, d.col + 1, cell), to, cell) == Write(d, to, cell)
  {
    var e := Write(d, d.col + 1, cell);
    assert LastLine(e) == Over(LastLine(d), d.col, d.col + 1, cell);
    assert Over(LastLine(e), e.col, to, cell) == Over(LastLine(d), d.col, to, cell);
  }

  lemma {:induction false} SpacesReachStop(d: Doc, cols: nat, cell: Cell)
    requires DocOk(d, cols) && d.col < cols
    ensures Spaces(d, cols, cell) == Write(d, TabStop(d.col, cols), cell)
    decreases cols - d.col
  {
    var e := Strike(d, cols, cell);
    TabStopAhead(d.col, cols);
    if e.col % 8 != 0 && e.col < cols {
      SpacesReachStop(e, cols, cell);
      WriteOn(d, cols, TabStop(d.col, cols), cell);
    }
  }

  lemma TypeComposes(d: Doc, cols: nat, s: State, b: u8)
    requires DocOk(d, cols) && s.mode == Ground && b != ESC
    ensures Flows(ActionOf(s, b)) && Compose(d, cols, ActionOf(s, b)) == Type(d, cols, s.sgr, b)
  {
    if b == 0x09 && d.col < cols {
      SpacesReachStop(d, cols, Inked(0x20, s.sgr));
    }
  }

  lemma {:induction false} TypingComposes(d: Doc, cols: nat, s: State, bytes: seq<u8>)
    requires DocOk(d, cols) && s.mode == Ground && ESC !in bytes
    ensures AllFlow(Actions(s, bytes))
    ensures ComposeAll(d, cols, Actions(s, bytes)) == TypeAll(d, cols, s.sgr, bytes)
    decreases |bytes|
  {
    EscapeFreeFlows(s, bytes);
    if bytes != [] {
      assert forall b :: b in bytes[1..] ==> b in bytes;
      TypeComposes(d, cols, s, bytes[0]);
      TypingComposes(Type(d, cols, s.sgr, bytes[0]), cols, s, bytes[1..]);
    }
  }

  /** So from a blank screen in ground state every escape-free stream, whatever control
      characters it holds, shows the end of the document it types. */
  lemma EscapeFreeScreen(s: State, bytes: seq<u8>, cols: nat, rows: nat)
    requires 1 <= cols && 1 <= rows && s.mode == Ground && 0x1b !in bytes
    ensures var d := TypeAll(EMPTY, cols, s.sgr, bytes);
      var t := FeedAll(Term(s, BlankGrid(cols, rows), true), bytes);
      && t.grid == Shown(d, cols, rows)
      && t.grid.row == Min(|d.lines| - 1, rows - 1)
      && t.control == s
  {
    EscapeFreeFlows(s, bytes);
    TypingComposes(EMPTY, cols, s, bytes);
    ScreenShowsDocument(s, bytes, cols, rows);
    FeedFactors(Term(s, BlankGrid(cols, rows), true), bytes);
  }

  // ----- Plain text -----

  /** A paragraph cut every `cols` cells. */
  function Chunks(cells: seq<Cell>, cols: nat): (lines: seq<seq<Cell>>)
    requires 1 <= cols
    ensures lines != []
    ensures forall i :: 0 <= i < |lines| ==> |lines[i]| <= cols
    decreases |cells|
  {
    if |cells| <= cols then [cells] else [cells[..cols]] + Chunks(cells[cols..], cols)
  }

  lemma {:induction false} ChunksSnoc(cells: seq<Cell>, cols: nat, cell: Cell)
    requires 1 <= cols
    ensures var lines := Chunks(cells, cols); var k := |lines| - 1;
      Chunks(cells + [cell], cols) ==
        if |lines[k]| == cols then lines + [[cell]] else lines[k := lines[k] + [cell]]
    decreases |cells|
  {
    var all := cells + [cell];
    if |cells| < cols {
      assert Chunks(cells, cols) == [cells];
      assert Chunks(all, cols) == [all];
    } else if |cells| == cols {
      assert all[..cols] == cells && all[cols..] == [cell];
      assert Chunks(cells, cols) == [cells];
      assert Chunks([cell], cols) == [[cell]];
    } else {
      var head, tail := cells[..cols], cells[cols..];
      assert all[..cols] == head && all[cols..] == tail + [cell];
      ChunksSnoc(tail, cols, cell);
      assert Chunks(cells, cols) == [head] + Chunks(tail, cols);
      assert Chunks(all, cols) == [head] + Chunks(tail + [cell], cols);
    }
  }

  /** The paragraphs of a text: what stands between line feeds. */
  function Paragraphs(text: seq<u8>, s: Sgr): (ps: seq<seq<Cell>>)
    ensures ps != []
  {
    if text == [] then [[]]
    else
      var ps := Paragraphs(text[..|text| - 1], s);
      var b := text[|text| - 1];
      var k := |ps| - 1;
      if b == 0x0a then ps + [[]] else ps[k := ps[k] + [Inked(b, s)]]
  }

  /** All paragraphs cut into lines, one after the other. */
  function Layout(ps: seq<seq<Cell>>, cols: nat): seq<seq<Cell>>
    requires 1 <= cols
  {
    if ps == [] then [] else Layout(ps[..|ps| - 1], cols) + Chunks(ps[|ps| - 1], cols)
  }

  predicate PlainText(text: seq<u8>) {
    forall i :: 0 <= i < |text| ==> text[i] == 0x0a || 0x20 <= text[i] <= 0x7e
  }

  /** The document that plain text composes. */
  function Laid(text: seq<u8>, s: Sgr, cols: nat): (d: Doc)
    requires 1 <= cols
    ensures d.lines != []
  {
    var ps := Paragraphs(text, s);
    var last := Chunks(ps[|ps| - 1], cols);
    Doc(Layout(ps, cols), |last[|last| - 1]|)
  }

  lemma {:induction false} ComposeAppend(d: Doc, cols: nat, a: seq<Action>, b: seq<Action>)
    requires DocOk(d, cols) && AllFlow(a) && AllFlow(b)
    ensures ComposeAll(d, cols, a + b) == ComposeAll(ComposeAll(d, cols, a), cols, b)
    decreases |a|
  {
    if a == [] {
      assert a + b == b;
    } else {
      assert (a + b)[1..] == a[1..] + b;
      ComposeAppend(Compose(d, cols, a[0]), cols, a[1..], b);
    }
  }

  lemma LaidSnocBreak(text: seq<u8>, s: Sgr, cols: nat)
    requires 1 <= cols && DocOk(Laid(text, s, cols), cols)
    ensures Laid(text + [LF], s, cols) == Break(Laid(text, s, cols))
  {
  }

  lemma ParagraphsSnoc(text: seq<u8>, s: Sgr, b: u8)
    requires b != 0x0a
    ensures var ps := Paragraphs(text, s); var k := |ps| - 1;
      Paragraphs(text + [b], s) == ps[k := ps[k] + [Inked(b, s)]]
  {
    assert (text + [b])[..|text|] == text;
  }

  lemma LayoutOfLast(ps: seq<seq<Cell>>, cols: nat, last: seq<Cell>)
    requires 1 <= cols && ps != []
    ensures var k := |ps| - 1; Layout(ps[k := last], cols) == Layout(ps[..k], cols) + Chunks(last, cols)
  {
    var k := |ps| - 1;
    assert ps[k := last][..k] == ps[..k];
  }

  lemma LaidSnocPrint(text: seq<u8>, s: Sgr, cols: nat, b: u8)
    requires 1 <= cols && 0x20 <= b <= 0x7e && DocOk(Laid(text, s, cols), cols)
    ensures Laid(text + [b], s, cols) == Compose(Laid(text, s, cols), cols, Print(Inked(b, s)))
  {
    var ps := Paragraphs(text, s);
    var k, cell := |ps| - 1, Inked(b, s);
    ParagraphsSnoc(text, s, b);
    LayoutOfLast(ps, cols, ps[k] + [cell]);
    LastParagraphPrints(Layout(ps[..k], cols), ps[k], cols, cell);
  }

  /** The document with lines `init` and then a last paragraph. */
  function Ending(init: seq<seq<Cell>>, last: seq<Cell>, cols: nat): Doc
    requires 1 <= cols
  {
    var chunks := Chunks(last, cols);
    Doc(init + chunks, |chunks[|chunks| - 1]|)
  }

  lemma LastParagraphPrints(init: seq<seq<Cell>>, last: seq<Cell>, cols: nat, cell: Cell)
    requires 1 <= cols && DocOk(Ending(init, last, cols), cols)
    ensures Ending(init, last + [cell], cols) == Compose(Ending(init, last, cols), cols, Print(cell))
  {
    ChunksSnoc(last, cols, cell);
    PrintAfterChunks(init, Chunks(last, cols), cols, cell);
  }

  /** Printing at the end of a document whose last lines are `chunks`. */
  lemma PrintAfterChunks(init: seq<seq<Cell>>, chunks: seq<seq<Cell>>, cols: nat, cell: Cell)
    requires chunks != []
    requires var d := Doc(init + chunks, |chunks[|chunks| - 1]|); DocOk(d, cols)
    ensures var m := |chunks| - 1; var d := Doc(init + chunks, |chunks[m]|);
      Compose(d, cols, Print(cell)) ==
        if |chunks[m]| == cols then Doc(init + (chunks + [[cell]]), 1)
        else Doc(init + chunks[m := chunks[m] + [cell]], |chunks[m]| + 1)
  {
    var m := |chunks| - 1;
    var d := Doc(init + chunks, |chunks[m]|);
    assert LastLine(d) == chunks[m];
    if |chunks[m]| == cols {
      assert Over([], 0, 1, cell) == [cell];
      assert init + (chunks + [[cell]]) == (init + chunks + [[]])[|init + chunks| := [cell]];
    } else {
      assert Over(chunks[m], d.col, d.col + 1, cell) == chunks[m] + [cell];
      assert init + chunks[m := chunks[m] + [cell]] == (init + chunks)[|init| + m := chunks[m] + [cell]];
    }
  }

  lemma {:induction false} TextComposes(s: State, text: seq<u8>, cols: nat)
    requires s.mode == Ground && 1 <= cols && PlainText(text)
    ensures ESC !in text && AllFlow(Actions(s, text))
    ensures ComposeAll(EMPTY, cols, Actions(s, text)) == Laid(text, s.sgr, cols)
  {
    EscapeFreeFlows(s, text);
    if text == [] {
      assert Chunks([], cols) == [[]];
      var ps := Paragraphs(text, s.sgr);
      assert ps[..0] == [];
      assert Layout(ps, cols) == [[]];
    } else {
      var n := |text| - 1;
      var init, b := text[..n], text[n];
      assert text == init + [b];
      TextComposes(s, init, cols);
      EscapeFreeFlows(s, init);
      RunAppend(s, init, [b]);
      var a := ActionOf(s, b);
      assert Actions(s, [b]) == [a];
      assert AllFlow([a]);
      ComposeAppend(EMPTY, cols, Actions(s, init), [a]);
      assert ComposeAll(Laid(init, s.sgr, cols), cols, [a]) == Compose(Laid(init, s.sgr, cols), cols, a);
      if b == LF {
        LaidSnocBreak(init, s.sgr, cols);
      } else {
        LaidSnocPrint(init, s.sgr, cols, b);
      }
    }
  }

  /** Plain text on a fresh screen: its paragraphs, each cut every `cols` characters,
      the last `rows` lines of that in view and the cursor right after the last
      character, still on its line when the line is exactly full. */
  lemma PlainTextLayout(text: seq<u8>, cols: nat, rows: nat)
    requires 1 <= cols && 1 <= rows && PlainText(text)
    ensures DocOk(Laid(text, PLAIN, cols), cols)
    ensures FeedAll(Fresh(cols, rows), text).grid == Shown(Laid(text, PLAIN, cols), cols, rows)
  {
    TextComposes(START, text, cols);
    ScreenShowsDocument(START, text, cols, rows);
  }
}
