/** Painting a whole screen cell by cell, and reading it back from the grid. */
module Repaint {
  import opened Primitives
  import opened SgrState
  import opened Control
  import opened ControlLaws
  import opened CsiParameters
  import opened SgrStreams
  import opened Screen
  import opened TerminalSpec

  /** The colour code for palette index `c`, with the bright half at `base + 60`. */
  function ColorCode(c: Option<u8>, base: u32): seq<u32>
    requires IndexOk(c) && base < 1000
  {
    if c.None? then [] else if c.value < 8 then [base + c.value] else [base + 60 + (c.value - 8)]
  }

  /** A reset followed by the colours of the cell. */
  function Codes(cell: Cell): seq<u32>
    requires CellOk(cell)
  {
    [0] + ColorCode(cell.fg, 30) + ColorCode(cell.bg, 40)
  }

  lemma FoldOne(p: u32, ps: seq<u32>, s: Sgr)
    requires !IsExtended(p)
    ensures Fold([p] + ps, s) == Fold(ps, Basic(p, s))
  {
  }

  /** The codes of a cell select exactly its colours, from any colour state. */
  lemma CodesSelect(cell: Cell, s: Sgr)
    requires CellOk(cell)
    ensures Apply(Codes(cell), s) == Sgr(cell.fg, cell.bg, false)
  {
    var f, b := ColorCode(cell.fg, 30), ColorCode(cell.bg, 40);
    assert Codes(cell) == [0] + (f + b);
    FoldOne(0, f + b, s);
    ForegroundSelects(cell.fg, b);
    BackgroundSelects(cell.bg, PLAIN.(fg := cell.fg));
  }

  lemma ForegroundSelects(c: Option<u8>, rest: seq<u32>)
    requires IndexOk(c)
    ensures Fold(ColorCode(c, 30) + rest, PLAIN) == Fold(rest, PLAIN.(fg := c))
  {
    var f := ColorCode(c, 30);
    if f == [] {
      assert f + rest == rest;
    } else {
      FoldOne(f[0], rest, PLAIN);
    }
  }

  lemma BackgroundSelects(c: Option<u8>, s: Sgr)
    requires IndexOk(c) && s.bg == None
    ensures Fold(ColorCode(c, 40), s) == s.(bg := c)
  {
  }

  /** Address the cell, select its colours, print it. */
  function CellBytes(r: nat, c: nat, cell: Cell): seq<u8>
    requires r + 1 < WRAP && c + 1 < WRAP && CellOk(cell)
  {
    CsiBytes(Written([r + 1, c + 1]), 'H' as int) + SgrBytes(Codes(cell)) + [cell.ch]
  }

  /** A control sequence on the wire performs its action. */
  lemma Performed(t: Term, ps: seq<u32>, final: u8)
    requires Shaped(t.grid) && t.control.mode == Ground && IsFinal(final)
    ensures FeedAll(t, CsiBytes(Written(ps), final))
         == Term(AfterCsi(t.control, ps, final), Perform(t.grid, CsiAction(ps, final)), true)
  {
    var bytes := CsiBytes(Written(ps), final);
    WrittenSequence(t.control, ps, final);
    FeedFactors(t, bytes);
    var acts := Actions(t.control, bytes);
    var n := |acts| - 1;
    assert acts == acts[..n] + [acts[n]];
    NothingHappens(t.grid, acts[..n]);
    PerformAppend(t.grid, acts[..n], [acts[n]]);
    assert PerformAll(t.grid, [acts[n]]) == Perform(t.grid, acts[n]);
  }

  lemma Addressed(t: Term, r: nat, c: nat)
    requires Shaped(t.grid) && t.control.mode == Ground
    requires r < t.grid.rows < WRAP && c < t.grid.cols < WRAP
    ensures var u := FeedAll(t, CsiBytes(Written([r + 1, c + 1]), 'H' as int));
      u.grid == t.grid.(row := r, col := c) && u.control.mode == Ground
  {
    Performed(t, [r + 1, c + 1], 'H' as int);
  }

  lemma Printed(t: Term, ch: u8)
    requires Shaped(t.grid) && t.control.mode == Ground && IsPrintable(ch)
    ensures FeedAll(t, [ch]) == Term(t.control, Put(t.grid, Inked(ch, t.control.sgr)), true)
  {
  }

  lemma CellPainted(t: Term, r: nat, c: nat, cell: Cell)
    requires Shaped(t.grid) && t.control.mode == Ground && CellOk(cell)
    requires r < t.grid.rows < WRAP && c < t.grid.cols < WRAP
    ensures var u := FeedAll(t, CellBytes(r, c, cell));
      u.grid == SetCell(t.grid, r, c, cell).(row := r, col := c + 1) && u.control.mode == Ground
  {
    var at := CsiBytes(Written([r + 1, c + 1]), 'H' as int);
    var ink := SgrBytes(Codes(cell));
    var t1 := FeedAll(t, at);
    Addressed(t, r, c);
    var t2 := FeedAll(t1, ink);
    SgrSequence(t1, Codes(cell));
    CodesSelect(cell, t1.control.sgr);
    assert Inked(cell.ch, t2.control.sgr) == cell;
    Printed(t2, cell.ch);
    FeedAppend(t, at, ink);
    FeedAppend(t, at + ink, [cell.ch]);
  }

  /** A picture that fits a grid of 32-bit size. */
  predicate Paintable(want: seq<seq<Cell>>, cols: nat) {
    && |want| < WRAP
    && cols < WRAP
    && (forall r :: 0 <= r < |want| ==> |want[r]| == cols)
    && CellsOk(want)
  }

  /** One cell of a picture and where it goes. */
  datatype Stroke = Stroke(r: nat, c: nat, cell: Cell)

  /** The stroke paints a cell of the picture as it is there. */
  predicate Depicts(k: Stroke, want: seq<seq<Cell>>) {
    k.r < |want| && k.c < |want[k.r]| && k.cell == want[k.r][k.c]
  }

  predicate AllDepict(ks: seq<Stroke>, want: seq<seq<Cell>>) {
    forall i :: 0 <= i < |ks| ==> Depicts(ks[i], want)
  }

  /** Some stroke paints cell (r, c). */
  predicate Touches(ks: seq<Stroke>, r: nat, c: nat) {
    exists i :: 0 <= i < |ks| && ks[i].r == r && ks[i].c == c
  }

  /** Every cell of the picture is painted at least once. */
  predicate Covers(ks: seq<Stroke>, want: seq<seq<Cell>>) {
    forall r, c :: 0 <= r < |want| && 0 <= c < |want[r]| ==> Touches(ks, r, c)
  }

  function StrokeBytes(k: Stroke, want: seq<seq<Cell>>, cols: nat): seq<u8>
    requires Paintable(want, cols) && Depicts(k, want)
  {
    CellBytes(k.r, k.c, k.cell)
  }

  function RepaintBytes(ks: seq<Stroke>, want: seq<seq<Cell>>, cols: nat): seq<u8>
    requires Paintable(want, cols) && AllDepict(ks, want)
    decreases |ks|
  {
    if ks == [] then [] else StrokeBytes(ks[0], want, cols) + RepaintBytes(ks[1..], want, cols)
  }

  /** Cells that are not yet as wanted still have a stroke to come. */
  predicate Pending(cells: seq<seq<Cell>>, want: seq<seq<Cell>>, ks: seq<Stroke>) {
    && |cells| == |want|
    && (forall r :: 0 <= r < |want| ==> |cells[r]| == |want[r]|)
    && (forall r, c :: 0 <= r < |want| && 0 <= c < |want[r]| ==> cells[r][c] == want[r][c] || Touches(ks, r, c))
  }

  /** A terminal between two strokes. */
  predicate Midway(t: Term, want: seq<seq<Cell>>, cols: nat, ks: seq<Stroke>) {
    && Shaped(t.grid) && t.control.mode == Ground
    && t.grid.cols == cols && t.grid.rows == |want|
    && Pending(t.grid.cells, want, ks)
  }

  lemma OneStroke(t: Term, want: seq<seq<Cell>>, cols: nat, ks: seq<Stroke>)
    requires Paintable(want, cols) && AllDepict(ks, want) && ks != []
    requires Midway(t, want, cols, ks)
    ensures Midway(FeedAll(t, StrokeBytes(ks[0], want, cols)), want, cols, ks[1..])
  {
    var k := ks[0];
    CellPainted(t, k.r, k.c, k.cell);
    var g := SetCell(t.grid, k.r, k.c, k.cell);
    forall r, c | 0 <= r < |want| && 0 <= c < |want[r]|
      ensures g.cells[r][c] == want[r][c] || Touches(ks[1..], r, c)
    {
      if !(r == k.r && c == k.c) && g.cells[r][c] != want[r][c] {
        assert Touches(ks, r, c);
        var i :| 0 <= i < |ks| && ks[i].r == r && ks[i].c == c;
        assert ks[1..][i - 1] == ks[i];
      }
    }
  }

  lemma {:induction false} StrokesPaint(t: Term, want: seq<seq<Cell>>, cols: nat, ks: seq<Stroke>)
    requires Paintable(want, cols) && AllDepict(ks, want)
    requires Midway(t, want, cols, ks)
    ensures Midway(FeedAll(t, RepaintBytes(ks, want, cols)), want, cols, [])
    decreases |ks|
  {
    if ks != [] {
      var one, rest := StrokeBytes(ks[0], want, cols), RepaintBytes(ks[1..], want, cols);
      OneStroke(t, want, cols, ks);
      StrokesPaint(FeedAll(t, one), want, cols, ks[1..]);
      FeedAppend(t, one, rest);
    }
  }

  lemma NothingPending(cells: seq<seq<Cell>>, want: seq<seq<Cell>>)
    requires Pending(cells, want, [])
    ensures cells == want
  {
    forall r | 0 <= r < |want|
      ensures cells[r] == want[r]
    {
      assert forall c :: 0 <= c < |want[r]| ==> cells[r][c] == want[r][c];
    }
  }

  /** Whatever a terminal was doing and showing, the reset word followed by any strokes
      that cover a picture of its size, in any order, leaves exactly that picture. */
  lemma RepaintRoundTrip(t: Term, want: seq<seq<Cell>>, ks: seq<Stroke>)
    requires Shaped(t.grid)
    requires Paintable(want, t.grid.cols) && t.grid.rows == |want|
    requires AllDepict(ks, want) && Covers(ks, want)
    ensures var u := FeedAll(t, RESET + RepaintBytes(ks, want, t.grid.cols));
      u.grid.cells == want && u.control.mode == Ground
  {
    var cols := t.grid.cols;
    var u := FeedAll(t, RESET);
    FeedFactors(t, RESET);
    ResetReachesGround(t.control, []);
    assert [] + RESET == RESET;
    StrokesPaint(u, want, cols, ks);
    FeedAppend(t, RESET, RepaintBytes(ks, want, cols));
    NothingPending(FeedAll(u, RepaintBytes(ks, want, cols)).grid.cells, want);
  }

  // ----- Row by row -----

  function RowStrokes(want: seq<seq<Cell>>, r: nat): seq<Stroke>
    requires r < |want|
  {
    seq(|want[r]|, c requires 0 <= c < |want[r]| => Stroke(r, c, want[r][c]))
  }

  /** The cells of the first `n` rows in reading order. */
  function ReadingOrder(want: seq<seq<Cell>>, n: nat): seq<Stroke>
    requires n <= |want|
  {
    if n == 0 then [] else ReadingOrder(want, n - 1) + RowStrokes(want, n - 1)
  }

  lemma {:induction false} ReadingOrderTouches(want: seq<seq<Cell>>, n: nat, r: nat, c: nat)
    requires r < n <= |want| && c < |want[r]|
    ensures Touches(ReadingOrder(want, n), r, c)
  {
    var before, row := ReadingOrder(want, n - 1), RowStrokes(want, n - 1);
    var all := before + row;
    if r < n - 1 {
      ReadingOrderTouches(want, n - 1, r, c);
      var i :| 0 <= i < |before| && before[i].r == r && before[i].c == c;
      assert all[i] == before[i];
    } else {
      assert all[|before| + c] == row[c];
    }
  }

  /** Painting row by row covers the picture. */
  lemma {:induction false} ReadingOrderCovers(want: seq<seq<Cell>>, n: nat)
    requires n <= |want|
    ensures AllDepict(ReadingOrder(want, n), want)
    ensures n == |want| ==> Covers(ReadingOrder(want, n), want)
  {
    if n > 0 {
      ReadingOrderCovers(want, n - 1);
    }
    if n == |want| {
      forall r, c | 0 <= r < |want| && 0 <= c < |want[r]|
        ensures Touches(ReadingOrder(want, n), r, c)
      {
        ReadingOrderTouches(want, n, r, c);
      }
    }
  }
}
