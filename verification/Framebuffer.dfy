/** The console font, the picture of a grid, and drawing into a pitched buffer. */
module Framebuffer {
  import opened Primitives
  import opened Palette
  import opened Control
  import opened Screen

  /** 256 glyphs of 32 rows, one byte per row, leftmost pixel in the top bit. */
  datatype Font = Font(width: nat, height: nat, data: seq<u8>)

  predicate FontOk(f: Font) {
    1 <= f.width <= 8 && 1 <= f.height <= 32 && |f.data| == 256 * 32
  }

  const POWERS: seq<nat> := [1, 2, 4, 8, 16, 32, 64, 128]

  /** Whether pixel (x, y) of glyph `c` is set. */
  predicate GlyphBit(f: Font, c: u8, x: nat, y: nat)
    requires FontOk(f)
  {
    x < f.width && y < f.height && (f.data[c * 32 + y] / POWERS[7 - x]) % 2 != 0
  }

  /** What a set pixel in column `x` contributes to the byte of its row. */
  function Weight(f: Font, c: u8, x: nat, y: nat): nat
    requires FontOk(f) && x < 8
  {
    if GlyphBit(f, c, x, y) then POWERS[7 - x] else 0
  }

  /** The value of the bits of a row byte that lie right of the glyph. */
  function Unit(f: Font): nat
    requires FontOk(f)
    ensures Unit(f) > 0
  {
    if f.width == 8 then 1 else POWERS[8 - f.width]
  }

  /** The pixels of a glyph row, leftmost first, are the binary digits of its byte, most
      significant first; a font narrower than a byte leaves its low bits unused. */
  lemma GlyphRowIsBinary(f: Font, c: u8, y: nat)
    requires FontOk(f) && y < f.height
    ensures var n := f.data[c * 32 + y];
      n - n % Unit(f) ==
      Weight(f, c, 0, y) + Weight(f, c, 1, y) + Weight(f, c, 2, y) + Weight(f, c, 3, y) +
      Weight(f, c, 4, y) + Weight(f, c, 5, y) + Weight(f, c, 6, y) + Weight(f, c, 7, y)
  {
    var n := f.data[c * 32 + y];
    forall x | 0 <= x < 8
      ensures Weight(f, c, x, y) == if x < f.width then Digit(n, POWERS[7 - x]) else 0
    {
    }
    HighDigits(n, f.width);
  }

  function Kept(n: nat, w: nat, x: nat): nat
    requires x < 8
  {
    if x < w then Digit(n, POWERS[7 - x]) else 0
  }

  lemma HighDigits(n: u8, w: nat)
    requires 1 <= w <= 8
    ensures n - n % (if w == 8 then 1 else POWERS[8 - w]) ==
      Kept(n, w, 0) + Kept(n, w, 1) + Kept(n, w, 2) + Kept(n, w, 3) +
      Kept(n, w, 4) + Kept(n, w, 5) + Kept(n, w, 6) + Kept(n, w, 7)
  {
    BinaryDigits(n);
  }

  function Digit(n: nat, power: nat): nat
    requires power > 0
  {
    if n / power % 2 != 0 then power else 0
  }

  lemma Halved(n: nat, p: nat)
    requires p > 0
    ensures n / p == 2 * (n / (2 * p)) + n / p % 2
  {
    var q, r := n / p, n % p;
    var h, b := q / 2, q % 2;
    assert n == p * q + r;
    assert p * q == 2 * p * h + p * b;
    assert p * b + r < 2 * p;
    DivModUnique(n, 2 * p, h, p * b + r);
  }

  /** The digits below `2 * p` make up the remainder. */
  lemma OneMoreDigit(n: nat, p: nat)
    requires p > 0
    ensures n % (2 * p) == n % p + Digit(n, p)
  {
    Halved(n, p);
    var h, b := n / (2 * p), n / p % 2;
    assert n == p * (n / p) + n % p;
    assert p * (n / p) == 2 * p * h + p * b;
    assert b == 0 || b == 1;
    DivModUnique(n, 2 * p, h, p * b + n % p);
  }

  /** The remainders by powers of two grow by one digit at a time. */
  lemma BinaryDigits(n: u8)
    ensures n % 1 == 0 && n % 2 == n % 1 + Digit(n, 1) && n % 4 == n % 2 + Digit(n, 2)
    ensures n % 8 == n % 4 + Digit(n, 4) && n % 16 == n % 8 + Digit(n, 8) && n % 32 == n % 16 + Digit(n, 16)
    ensures n % 64 == n % 32 + Digit(n, 32) && n % 128 == n % 64 + Digit(n, 64) && n == n % 128 + Digit(n, 128)
  {
    OneMoreDigit(n, 1);
    OneMoreDigit(n, 2);
    OneMoreDigit(n, 4);
    OneMoreDigit(n, 8);
    OneMoreDigit(n, 16);
    OneMoreDigit(n, 32);
    OneMoreDigit(n, 64);
    OneMoreDigit(n, 128);
  }

  /** The colour of pixel (dx, dy) of a cell: glyph ink over background. */
  function CellPixel(cell: Cell, f: Font, dx: nat, dy: nat): u32
    requires FontOk(f) && CellOk(cell)
  {
    if cell.ch != SPACE && GlyphBit(f, cell.ch, dx, dy) then
      (if cell.fg.Some? then PALETTE[cell.fg.value] else FG)
    else if cell.bg.Some? then PALETTE[cell.bg.value]
    else BG
  }

  /** The picture of a grid: the colour of every pixel of the plane. */
  function Picture(cells: seq<seq<Cell>>, f: Font, x: nat, y: nat): u32
    requires FontOk(f) && CellsOk(cells)
  {
    var r, c := Quotient(y, f.height), Quotient(x, f.width);
    if r < |cells| && c < |cells[r]| then CellPixel(cells[r][c], f, Remainder(x, f.width), Remainder(y, f.height))
    else BG
  }

  /** The pixels of cell (r, c): where its glyph is set, the foreground or light grey; else
      the background, or that of the screen. */
  lemma PixelsOfCell(cells: seq<seq<Cell>>, f: Font, r: nat, c: nat, dx: nat, dy: nat)
    requires FontOk(f) && CellsOk(cells) && r < |cells| && c < |cells[r]| && dx < f.width && dy < f.height
    ensures var cell := cells[r][c];
      Picture(cells, f, c * f.width + dx, r * f.height + dy) ==
        if cell.ch != 0x20 && GlyphBit(f, cell.ch, dx, dy) then
          (if cell.fg.Some? then PALETTE[cell.fg.value] else 0x00C0C0C0)
        else (if cell.bg.Some? then PALETTE[cell.bg.value] else 0x00101014)
  {
    DivModUnique(c * f.width + dx, f.width, c, dx);
    DivModUnique(r * f.height + dy, f.height, r, dy);
  }

  /** Pixels to the right of or below the grid have the background of the screen. */
  lemma PixelsOutside(cells: seq<seq<Cell>>, f: Font, cols: nat, x: nat, y: nat)
    requires FontOk(f) && CellsOk(cells) && forall r :: 0 <= r < |cells| ==> |cells[r]| == cols
    requires x >= cols * f.width || y >= |cells| * f.height
    ensures Picture(cells, f, x, y) == 0x00101014
  {
    if x >= cols * f.width {
      PastTheGrid(x, f.width, cols);
    } else {
      PastTheGrid(y, f.height, |cells|);
    }
  }

  /** Byte `i` of a colour in memory, least significant first. */
  function Le(color: u32, i: nat): u8
    requires i < 4
  {
    if i == 0 then color % 0x100
    else if i == 1 then (color / 0x100) % 0x100
    else if i == 2 then (color / 0x1_0000) % 0x100
    else color / 0x100_0000
  }

  /** The four bytes are the little-endian digits of the colour. */
  lemma LeIsLittleEndian(color: u32)
    ensures color == Le(color, 0) + 0x100 * Le(color, 1) + 0x1_0000 * Le(color, 2) + 0x100_0000 * Le(color, 3)
  {
    var a := color / 0x100;
    var b := a / 0x100;
    assert b == color / 0x1_0000 && b / 0x100 == color / 0x100_0000;
  }

  // ----- Buffers as paint over what was there -----

  /** For each pixel, the colour painted there, if any. */
  type Paint = (int, int) -> Option<u32>

  function ByteOf(p: Option<u32>, was: u8, i: nat): u8
    requires i < 4
  {
    if p.Some? then Le(p.value, i) else was
  }

  /** `buf` is `orig` painted over with `p`; rows are `pitch` bytes apart. */
  ghost predicate Painting(buf: array<u8>, orig: seq<u8>, pitch: nat, p: Paint)
    reads buf
  {
    && pitch > 0
    && buf.Length == |orig|
    && (forall k :: 0 <= k < |orig| ==> buf[k] == ByteOf(p(k % pitch / 4, k / pitch), orig[k], k % pitch % 4))
  }

  /** Pixel (x, y) lies in a row of the buffer and ends within it. */
  predicate Fits(len: nat, pitch: nat, x: int, y: int) {
    0 <= x && 0 <= y && 4 * x + 4 <= pitch && y * pitch + 4 * x + 4 <= len
  }

  function Dab(p: Paint, x: int, y: int, color: u32): Paint {
    (i, j) => if i == x && j == y then Some(color) else p(i, j)
  }

  lemma DivModUnique(k: int, pitch: nat, y: int, off: int)
    requires pitch > 0 && 0 <= off < pitch && k == y * pitch + off
    ensures k / pitch == y && k % pitch == off
  {
    var d := k / pitch - y;
    assert d * pitch == off - k % pitch;
    SmallMultiple(d, pitch);
  }

  lemma SmallMultiple(d: int, n: int)
    requires n > 0 && -n < d * n < n
    ensures d == 0
  {
  }

  /** Byte `k` belongs to pixel (x, y) exactly when it is one of its four bytes. */
  lemma PixelBytes(k: nat, pitch: nat, x: nat, y: nat)
    requires pitch > 0 && 4 * x + 4 <= pitch
    ensures var off := y * pitch + 4 * x;
      (k % pitch / 4 == x && k / pitch == y) <==> off <= k < off + 4
    ensures var off := y * pitch + 4 * x;
      off <= k < off + 4 ==> k % pitch % 4 == k - off
  {
    var off := y * pitch + 4 * x;
    if off <= k < off + 4 {
      DivModUnique(k, pitch, y, 4 * x + (k - off));
    }
    if k % pitch / 4 == x && k / pitch == y {
      assert k == y * pitch + k % pitch;
    }
  }

  /** Writes the four bytes of one pixel. */
  method WritePixel(buf: array<u8>, pitch: nat, x: nat, y: nat, color: u32, ghost orig: seq<u8>, ghost p: Paint)
    requires Painting(buf, orig, pitch, p)
    requires Fits(buf.Length, pitch, x, y)
    modifies buf
    ensures Painting(buf, orig, pitch, Dab(p, x, y, color))
  {
    var off := y * pitch + x * 4;
    ghost var was := buf[..];
    for i := 0 to 4
      invariant forall k :: 0 <= k < buf.Length ==>
        buf[k] == if off <= k < off + i then Le(color, k - off) else was[k]
    {
      buf[off + i] := Le(color, i);
    }
    forall k | 0 <= k < buf.Length
      ensures buf[k] == ByteOf(Dab(p, x, y, color)(k % pitch / 4, k / pitch), orig[k], k % pitch % 4)
    {
      PixelBytes(k, pitch, x, y);
      assert was[k] == ByteOf(p(k % pitch / 4, k / pitch), orig[k], k % pitch % 4);
    }
  }

  lemma SamePaint(buf: array<u8>, orig: seq<u8>, pitch: nat, p: Paint, q: Paint)
    requires Painting(buf, orig, pitch, p)
    requires forall x, y :: p(x, y) == q(x, y)
    ensures Painting(buf, orig, pitch, q)
  {
  }

  // ----- Background -----

  /** Background on the first `width` pixels of rows before `row` and on the first
      `col` of row `row`, as far as they fit. */
  function Backdrop(len: nat, pitch: nat, width: nat, row: int, col: int): Paint {
    (i, j) => if Fits(len, pitch, i, j) && i < width && (j < row || (j == row && i < col)) then Some(BG) else None
  }

  lemma FitsMonotone(len: nat, pitch: nat, i: int, j: int, y: nat)
    requires y * pitch >= len && j >= y
    ensures !Fits(len, pitch, i, j)
  {
    MulLe(pitch, y, j);
  }

  /** Fills one row with background: the pixels of the first `n` bytes. */
  method ClearRow(buf: array<u8>, pitch: nat, width: nat, y: nat, n: nat, ghost orig: seq<u8>)
    requires 0 < pitch && y * pitch < buf.Length
    requires n == Min(width * 4, Min(pitch, buf.Length - y * pitch))
    requires Painting(buf, orig, pitch, Backdrop(buf.Length, pitch, width, y, 0))
    modifies buf
    ensures Painting(buf, orig, pitch, Backdrop(buf.Length, pitch, width, y + 1, 0))
  {
    ghost var len := buf.Length;
    var x := 0;
    while 4 * x + 4 <= n
      invariant Painting(buf, orig, pitch, Backdrop(len, pitch, width, y, x))
    {
      WritePixel(buf, pitch, x, y, BG, orig, Backdrop(len, pitch, width, y, x));
      SamePaint(buf, orig, pitch, Dab(Backdrop(len, pitch, width, y, x), x, y, BG),
                Backdrop(len, pitch, width, y, x + 1));
      x := x + 1;
    }
    SamePaint(buf, orig, pitch, Backdrop(len, pitch, width, y, x), Backdrop(len, pitch, width, y + 1, 0));
  }

  /** Fills every row of the buffer with background, leaving the bytes after the
      first `width` pixels of each row alone. */
  method Clear(buf: array<u8>, pitch: nat, width: nat)
    requires 0 < pitch
    modifies buf
    ensures Painting(buf, old(buf[..]), pitch, Cleared(buf.Length, pitch, width))
  {
    ghost var orig, len := buf[..], buf.Length;
    var y, start := 0, 0;
    while start < buf.Length
      invariant start == y * pitch
      invariant Painting(buf, orig, pitch, Backdrop(len, pitch, width, y, 0))
      decreases buf.Length - start
    {
      var rowLen := Min(pitch, buf.Length - start);
      ClearRow(buf, pitch, width, y, Min(width * 4, rowLen), orig);
      y, start := y + 1, start + pitch;
    }
    BackdropDone(buf, orig, pitch, width, y);
  }

  /** Background on the first `width` pixels of every row, as far as they fit. */
  function Cleared(len: nat, pitch: nat, width: nat): Paint {
    (i, j) => if Fits(len, pitch, i, j) && i < width then Some(BG) else None
  }

  lemma BackdropDone(buf: array<u8>, orig: seq<u8>, pitch: nat, width: nat, y: nat)
    requires y * pitch >= buf.Length
    requires Painting(buf, orig, pitch, Backdrop(buf.Length, pitch, width, y, 0))
    ensures Painting(buf, orig, pitch, Cleared(buf.Length, pitch, width))
  {
    var len := buf.Length;
    forall i, j | j >= y
      ensures !Fits(len, pitch, i, j)
    {
      FitsMonotone(len, pitch, i, j, y);
    }
    SamePaint(buf, orig, pitch, Backdrop(len, pitch, width, y, 0), Cleared(len, pitch, width));
  }

  // ----- Rectangles and glyphs -----

  /** `color` at the pixels of `mask` in a rectangle at (ox, oy) of width `w`: on its
      first `y` rows and the first `x` pixels of row `y`. */
  function Stamp(p: Paint, ox: nat, oy: nat, w: nat, y: nat, x: nat, color: u32, mask: (int, int) -> bool): Paint {
    (i, j) =>
      if ox <= i < ox + w && oy <= j && (j < oy + y || (j == oy + y && i < ox + x)) && mask(i - ox, j - oy)
      then Some(color) else p(i, j)
  }

  /** The test that lets a fill of width `w` go on to pixel row `y`. It looks at the
      left edge of the row, not at the rectangle. */
  predicate FillReaches(len: nat, pitch: nat, w: nat, y: nat) {
    y * pitch + w * 4 <= len
  }

  /** Pixel (x, y), if its row is reached, ends within the buffer. */
  predicate ReachedFits(len: nat, pitch: nat, w: nat, x: nat, y: nat) {
    FillReaches(len, pitch, w, y) ==> y * pitch + 4 * x + 4 <= len
  }

  /** Every pixel that a fill reaches ends within the buffer: the fill does not panic. */
  ghost predicate FillFits(len: nat, pitch: nat, ox: nat, oy: nat, w: nat, h: nat) {
    forall dx, dy :: 0 <= dx < w && 0 <= dy < h ==> FillPixelFits(len, pitch, ox, oy, w, dx, dy)
  }

  predicate FillPixelFits(len: nat, pitch: nat, ox: nat, oy: nat, w: nat, dx: nat, dy: nat) {
    ReachedFits(len, pitch, w, ox + dx, oy + dy)
  }

  /** The rows of a rectangle that a fill reaches. */
  function FillMask(len: nat, pitch: nat, w: nat, oy: nat): (int, int) -> bool {
    (_, dy) => 0 <= dy && FillReaches(len, pitch, w, oy + dy)
  }

  lemma ReachMonotone(len: nat, pitch: nat, w: nat, y: nat, y': nat)
    requires y <= y' && FillReaches(len, pitch, w, y')
    ensures FillReaches(len, pitch, w, y)
  {
    MulLe(pitch, y, y');
  }

  /** Fills a cell with one colour, down to the first row that is not reached. */
  method FillCell(buf: array<u8>, pitch: nat, color: u32, ox: nat, oy: nat, w: nat, h: nat,
                  ghost orig: seq<u8>, ghost p: Paint)
    requires Painting(buf, orig, pitch, p)
    requires 4 * (ox + w) <= pitch && FillFits(buf.Length, pitch, ox, oy, w, h)
    modifies buf
    ensures Painting(buf, orig, pitch, Stamp(p, ox, oy, w, h, 0, color, FillMask(buf.Length, pitch, w, oy)))
  {
    ghost var len := buf.Length;
    ghost var mask := FillMask(len, pitch, w, oy);
    var y := 0;
    SamePaint(buf, orig, pitch, p, Stamp(p, ox, oy, w, 0, 0, color, mask));
    while y < h
      invariant y <= h
      invariant Painting(buf, orig, pitch, Stamp(p, ox, oy, w, y, 0, color, mask))
    {
      var rowOff := (oy + y) * pitch;
      if rowOff + w * 4 > buf.Length {
        StopFilling(buf, orig, pitch, p, ox, oy, w, h, y, color);
        return;
      }
      FillRow(buf, pitch, color, ox, oy, w, h, y, orig, p);
      SamePaint(buf, orig, pitch, Stamp(p, ox, oy, w, y, w, color, mask), Stamp(p, ox, oy, w, y + 1, 0, color, mask));
      y := y + 1;
    }
  }

  /** Row `y` of a fill that reaches it. */
  method FillRow(buf: array<u8>, pitch: nat, color: u32, ox: nat, oy: nat, w: nat, h: nat, y: nat,
                 ghost orig: seq<u8>, ghost p: Paint)
    requires 4 * (ox + w) <= pitch && FillFits(buf.Length, pitch, ox, oy, w, h)
    requires y < h && FillReaches(buf.Length, pitch, w, oy + y)
    requires Painting(buf, orig, pitch, Stamp(p, ox, oy, w, y, 0, color, FillMask(buf.Length, pitch, w, oy)))
    modifies buf
    ensures Painting(buf, orig, pitch, Stamp(p, ox, oy, w, y, w, color, FillMask(buf.Length, pitch, w, oy)))
  {
    ghost var mask := FillMask(buf.Length, pitch, w, oy);
    var x := 0;
    while x < w
      invariant x <= w
      invariant Painting(buf, orig, pitch, Stamp(p, ox, oy, w, y, x, color, mask))
    {
      ghost var q := Stamp(p, ox, oy, w, y, x, color, mask);
      assert FillPixelFits(buf.Length, pitch, ox, oy, w, x, y);
      WritePixel(buf, pitch, ox + x, oy + y, color, orig, q);
      SamePaint(buf, orig, pitch, Dab(q, ox + x, oy + y, color), Stamp(p, ox, oy, w, y, x + 1, color, mask));
      x := x + 1;
    }
  }

  /** Where a fill stops, nothing below is reached either. */
  lemma StopFilling(buf: array<u8>, orig: seq<u8>, pitch: nat, p: Paint, ox: nat, oy: nat, w: nat, h: nat,
                    y: nat, color: u32)
    requires y <= h && !FillReaches(buf.Length, pitch, w, oy + y)
    requires Painting(buf, orig, pitch, Stamp(p, ox, oy, w, y, 0, color, FillMask(buf.Length, pitch, w, oy)))
    ensures Painting(buf, orig, pitch, Stamp(p, ox, oy, w, h, 0, color, FillMask(buf.Length, pitch, w, oy)))
  {
    var len := buf.Length;
    forall j | j >= oy + y
      ensures !FillReaches(len, pitch, w, j)
    {
      if FillReaches(len, pitch, w, j) {
        ReachMonotone(len, pitch, w, oy + y, j);
      }
    }
    SamePaint(buf, orig, pitch, Stamp(p, ox, oy, w, y, 0, color, FillMask(len, pitch, w, oy)),
      Stamp(p, ox, oy, w, h, 0, color, FillMask(len, pitch, w, oy)));
  }

  /** The set pixels of a glyph at (ox, oy) that fit the buffer. */
  function GlyphMask(f: Font, ch: u8, len: nat, pitch: nat, ox: nat, oy: nat): (int, int) -> bool
    requires FontOk(f)
  {
    (x, y) => 0 <= x && 0 <= y && GlyphBit(f, ch, x, y) && Fits(len, pitch, ox + x, oy + y)
  }

  /** Draws the set pixels of a glyph, clipped at the end of the buffer. */
  method BlitGlyph(buf: array<u8>, pitch: nat, f: Font, ch: u8, color: u32, ox: nat, oy: nat,
                   ghost orig: seq<u8>, ghost p: Paint)
    requires FontOk(f) && 4 * (ox + f.width) <= pitch
    requires Painting(buf, orig, pitch, p)
    modifies buf
    ensures Painting(buf, orig, pitch,
      Stamp(p, ox, oy, f.width, f.height, 0, color, GlyphMask(f, ch, buf.Length, pitch, ox, oy)))
  {
    ghost var mask := GlyphMask(f, ch, buf.Length, pitch, ox, oy);
    var y := 0;
    SamePaint(buf, orig, pitch, p, Stamp(p, ox, oy, f.width, 0, 0, color, mask));
    while y < f.height
      invariant y <= f.height
      invariant Painting(buf, orig, pitch, Stamp(p, ox, oy, f.width, y, 0, color, mask))
    {
      var rowOff := (oy + y) * pitch;
      if rowOff + 4 > buf.Length {
        StopBlitting(buf, orig, pitch, p, f, ch, ox, oy, y, color);
        return;
      }
      BlitRow(buf, pitch, f, ch, color, ox, oy, y, orig, p);
      SamePaint(buf, orig, pitch, Stamp(p, ox, oy, f.width, y, f.width, color, mask),
        Stamp(p, ox, oy, f.width, y + 1, 0, color, mask));
      y := y + 1;
    }
  }

  /** Row `y` of a glyph. */
  method BlitRow(buf: array<u8>, pitch: nat, f: Font, ch: u8, color: u32, ox: nat, oy: nat, y: nat,
                 ghost orig: seq<u8>, ghost p: Paint)
    requires FontOk(f) && y < f.height && 4 * (ox + f.width) <= pitch
    requires Painting(buf, orig, pitch,
      Stamp(p, ox, oy, f.width, y, 0, color, GlyphMask(f, ch, buf.Length, pitch, ox, oy)))
    modifies buf
    ensures Painting(buf, orig, pitch,
      Stamp(p, ox, oy, f.width, y, f.width, color, GlyphMask(f, ch, buf.Length, pitch, ox, oy)))
  {
    ghost var w, mask := f.width, GlyphMask(f, ch, buf.Length, pitch, ox, oy);
    var x := 0;
    while x < f.width
      invariant x <= f.width
      invariant Painting(buf, orig, pitch, Stamp(p, ox, oy, w, y, x, color, mask))
    {
      ghost var q := Stamp(p, ox, oy, w, y, x, color, mask);
      var off := (oy + y) * pitch + (ox + x) * 4;
      if GlyphBit(f, ch, x, y) && off + 4 <= buf.Length {
        WritePixel(buf, pitch, ox + x, oy + y, color, orig, q);
        SamePaint(buf, orig, pitch, Dab(q, ox + x, oy + y, color), Stamp(p, ox, oy, w, y, x + 1, color, mask));
      } else {
        SamePaint(buf, orig, pitch, q, Stamp(p, ox, oy, w, y, x + 1, color, mask));
      }
      x := x + 1;
    }
  }

  /** Where not even the first pixel of a row fits, no pixel from there on does. */
  lemma StopBlitting(buf: array<u8>, orig: seq<u8>, pitch: nat, p: Paint, f: Font, ch: u8, ox: nat, oy: nat,
                     y: nat, color: u32)
    requires FontOk(f) && y <= f.height && (oy + y) * pitch + 4 > buf.Length
    requires Painting(buf, orig, pitch,
      Stamp(p, ox, oy, f.width, y, 0, color, GlyphMask(f, ch, buf.Length, pitch, ox, oy)))
    ensures Painting(buf, orig, pitch,
      Stamp(p, ox, oy, f.width, f.height, 0, color, GlyphMask(f, ch, buf.Length, pitch, ox, oy)))
  {
    var len := buf.Length;
    var mask := GlyphMask(f, ch, len, pitch, ox, oy);
    forall i, j | j >= oy + y
      ensures !Fits(len, pitch, i, j)
    {
      if Fits(len, pitch, i, j) {
        MulLe(pitch, oy + y, j);
      }
    }
    SamePaint(buf, orig, pitch, Stamp(p, ox, oy, f.width, y, 0, color, mask),
      Stamp(p, ox, oy, f.width, f.height, 0, color, mask));
  }

  /** Pixel `i` is in column `c` of cells of width `w` exactly when it is in its span. */
  lemma SpanDiv(i: nat, w: nat, c: nat)
    requires w > 0
    ensures i / w == c <==> c * w <= i < c * w + w
    ensures i / w == c ==> i % w == i - c * w
  {
    if c * w <= i < c * w + w {
      DivModUnique(i, w, c, i - c * w);
    }
    assert i == i / w * w + i % w;
  }

  // ----- When filling can leave the buffer -----

  /** Filling the background of any cell of the grid stays in the buffer. */
  ghost predicate FillsStay(len: nat, pitch: nat, f: Font, cols: nat, rows: nat) {
    forall r, c :: 0 <= r < rows && 0 <= c < cols ==> CellFillFits(len, pitch, f, r, c)
  }

  ghost predicate CellFillFits(len: nat, pitch: nat, f: Font, r: nat, c: nat) {
    FillFits(len, pitch, c * f.width, r * f.height, f.width, f.height)
  }

  /** The buffer ends in a pixel row of cell (r, c), after room for one cell but before
      the right edge of this one. */
  predicate CellOverruns(len: nat, pitch: nat, f: Font, r: nat, c: nat)
    requires pitch > 0
  {
    && r * f.height <= len / pitch < (r + 1) * f.height
    && f.width * 4 <= len % pitch < (c + 1) * f.width * 4
  }

  /** The same for some cell of the grid: before the right edge of all columns. */
  predicate Overruns(len: nat, pitch: nat, f: Font, cols: nat, rows: nat)
    requires pitch > 0
  {
    len / pitch < rows * f.height && f.width * 4 <= len % pitch < cols * f.width * 4
  }

  /** A pixel row before the last of the buffer is whole; the last has the remainder. */
  lemma RowRoom(len: nat, pitch: nat, y: nat)
    requires pitch > 0 && y * pitch <= len
    ensures y == len / pitch || y * pitch + pitch <= len
    ensures y == len / pitch ==> len == y * pitch + len % pitch
  {
    var q := len / pitch;
    assert len == q * pitch + len % pitch;
    if y > q {
      MulLe(pitch, q + 1, y);
    } else if y < q {
      MulLe(pitch, y + 1, q);
    }
  }

  lemma CellSpan(w: nat, n: nat, c: nat, d: nat)
    requires c < n && d < w
    ensures 0 <= c * w + d < n * w
  {
    MulLe(w, c + 1, n);
    assert (c + 1) * w == c * w + w;
  }

  /** The pixels of a cell that does not overrun fit where they are reached. A cell of
      the first column needs no room in the row. */
  lemma ReachedFitsUnlessOverrun(len: nat, pitch: nat, f: Font, r: nat, c: nat, x: nat, y: nat)
    requires 0 < pitch && (c == 0 || (c + 1) * f.width * 4 <= pitch) && !CellOverruns(len, pitch, f, r, c)
    requires x < (c + 1) * f.width && r * f.height <= y < (r + 1) * f.height
    ensures ReachedFits(len, pitch, f.width, x, y)
  {
    if FillReaches(len, pitch, f.width, y) {
      RowRoom(len, pitch, y);
    }
  }

  lemma NoOverrunFits(len: nat, pitch: nat, f: Font, r: nat, c: nat)
    requires 0 < pitch && (c == 0 || (c + 1) * f.width * 4 <= pitch) && !CellOverruns(len, pitch, f, r, c)
    ensures CellFillFits(len, pitch, f, r, c)
  {
    forall dx, dy | 0 <= dx < f.width && 0 <= dy < f.height
      ensures FillPixelFits(len, pitch, c * f.width, r * f.height, f.width, dx, dy)
    {
      CellSpan(f.width, c + 1, c, dx);
      CellSpan(f.height, r + 1, r, dy);
      ReachedFitsUnlessOverrun(len, pitch, f, r, c, c * f.width + dx, r * f.height + dy);
    }
  }

  lemma DivModSplit(y: nat, h: nat)
    requires h > 0
    ensures y == y / h * h + y % h && 0 <= y / h && 0 <= y % h < h
  {
  }

  lemma RowOfPixel(f: Font, rows: nat, y: nat)
    requires FontOk(f) && y < rows * f.height
    ensures var r := y / f.height; 0 <= r < rows && r * f.height <= y < (r + 1) * f.height
  {
    DivModSplit(y, f.height);
    var r := y / f.height;
    assert (r + 1) * f.height == r * f.height + f.height;
    if y / f.height >= rows {
      MulLe(f.height, rows, y / f.height);
      assert false;
    }
  }

  /** With an overrun the last pixel of the row in which the buffer ends does not fit. */
  lemma LastPixelLeaves(len: nat, pitch: nat, w: nat, c: nat)
    requires 0 < pitch && 1 <= w && w * 4 <= len % pitch < (c + 1) * w * 4
    ensures !ReachedFits(len, pitch, w, c * w + (w - 1), len / pitch)
  {
    DivModSplit(len, pitch);
    assert (c + 1) * w == c * w + w;
  }

  lemma OverrunLeaves(len: nat, pitch: nat, f: Font, r: nat, c: nat)
    requires FontOk(f) && 0 < pitch && CellOverruns(len, pitch, f, r, c)
    ensures !CellFillFits(len, pitch, f, r, c)
  {
    LastPixelLeaves(len, pitch, f.width, c);
    assert (r + 1) * f.height == r * f.height + f.height;
    PixelLeaves(len, pitch, f, r, c, len / pitch - r * f.height);
  }

  lemma PixelLeaves(len: nat, pitch: nat, f: Font, r: nat, c: nat, dy: nat)
    requires FontOk(f) && dy < f.height
    requires !ReachedFits(len, pitch, f.width, c * f.width + (f.width - 1), r * f.height + dy)
    ensures !CellFillFits(len, pitch, f, r, c)
  {
    assert !FillPixelFits(len, pitch, c * f.width, r * f.height, f.width, f.width - 1, dy);
  }

  /** Filling a cell stays in the buffer exactly unless the cell overruns it. */
  lemma CellFitsExactlyWhen(len: nat, pitch: nat, f: Font, r: nat, c: nat)
    requires FontOk(f) && 0 < pitch && (c == 0 || (c + 1) * f.width * 4 <= pitch)
    ensures CellFillFits(len, pitch, f, r, c) <==> !CellOverruns(len, pitch, f, r, c)
  {
    if CellOverruns(len, pitch, f, r, c) {
      OverrunLeaves(len, pitch, f, r, c);
    } else {
      NoOverrunFits(len, pitch, f, r, c);
    }
  }

  /** The grid overruns if and only if one of its cells does: if any, the last cell of
      the row of cells in which the buffer ends. */
  lemma OverrunOfCell(len: nat, pitch: nat, f: Font, cols: nat, rows: nat, r: nat, c: nat)
    requires FontOk(f) && 0 < pitch && r < rows && c < cols && CellOverruns(len, pitch, f, r, c)
    ensures Overruns(len, pitch, f, cols, rows)
  {
    MulLe(f.height, r + 1, rows);
    MulLe(f.width, c + 1, cols);
  }

  lemma OverrunHasCell(len: nat, pitch: nat, f: Font, cols: nat, rows: nat) returns (r: nat)
    requires FontOk(f) && 1 <= cols && 0 < pitch && Overruns(len, pitch, f, cols, rows)
    ensures r < rows && CellOverruns(len, pitch, f, r, cols - 1)
  {
    var y := len / pitch;
    RowOfPixel(f, rows, y);
    r := y / f.height;
  }

  /** Fills stay in the buffer, for every grid contents, exactly unless the buffer ends
      in a pixel row of the grid between room for one cell and room for all columns. */
  lemma FillsStayExactlyWhen(len: nat, pitch: nat, f: Font, cols: nat, rows: nat)
    requires FontOk(f) && 1 <= cols && 0 < pitch && (cols == 1 || cols * f.width * 4 <= pitch)
    ensures FillsStay(len, pitch, f, cols, rows) <==> !Overruns(len, pitch, f, cols, rows)
  {
    if Overruns(len, pitch, f, cols, rows) {
      var r := OverrunHasCell(len, pitch, f, cols, rows);
      OverrunLeaves(len, pitch, f, r, cols - 1);
    } else {
      forall r, c | 0 <= r < rows && 0 <= c < cols
        ensures CellFillFits(len, pitch, f, r, c)
      {
        ColumnsFit(pitch, f, cols, c);
        NoOverrunOfCell(len, pitch, f, cols, rows, r, c);
        NoOverrunFits(len, pitch, f, r, c);
      }
    }
  }

  lemma ColumnsFit(pitch: nat, f: Font, cols: nat, c: nat)
    requires c < cols && (cols == 1 || cols * f.width * 4 <= pitch)
    ensures c == 0 || (c + 1) * f.width * 4 <= pitch
  {
    MulLe(f.width, c + 1, cols);
  }

  lemma NoOverrunOfCell(len: nat, pitch: nat, f: Font, cols: nat, rows: nat, r: nat, c: nat)
    requires FontOk(f) && 0 < pitch && r < rows && c < cols && !Overruns(len, pitch, f, cols, rows)
    ensures !CellOverruns(len, pitch, f, r, c)
  {
    if CellOverruns(len, pitch, f, r, c) {
      OverrunOfCell(len, pitch, f, cols, rows, r, c);
    }
  }

  /** A buffer with room for all pixel rows of the grid is not overrun. */
  lemma WholeRowsDoNotOverrun(len: nat, pitch: nat, f: Font, cols: nat, rows: nat)
    requires 0 < pitch && rows * f.height * pitch <= len
    ensures !Overruns(len, pitch, f, cols, rows)
  {
    DivModSplit(len, pitch);
    if len / pitch < rows * f.height {
      MulLe(pitch, len / pitch + 1, rows * f.height);
    }
  }

  /** A mode 100 wide and 10 high, an 8x16 font, and a buffer of one page. */
  lemma SmallModeOverruns(data: seq<u8>)
    requires |data| == 256 * 32
    ensures var vga := Font(8, 16, data); Overruns(4096, 4 * 100, vga, 100 / 8, 1) && 10 * (4 * 100) <= 4096
  {
  }

  // ----- The whole grid -----

  /** Cell (r, c) comes before cell (r', c') in row-major order. */
  predicate Before(r: int, c: int, r': int, c': int) {
    r < r' || (r == r' && c < c')
  }

  /** What drawing a cell leaves at its pixel (dx, dy) over what was `under` it; the
      background counts only where the fill reaches. */
  function CellOver(cell: Cell, f: Font, dx: nat, dy: nat, reached: bool, under: Option<u32>): Option<u32>
    requires FontOk(f) && CellOk(cell)
  {
    if cell.ch != SPACE && GlyphBit(f, cell.ch, dx, dy) then
      Some(if cell.fg.Some? then PALETTE[cell.fg.value] else FG)
    else if cell.bg.Some? && reached then Some(PALETTE[cell.bg.value])
    else under
  }

  /** The buffer and grid that a picture is drawn for. */
  datatype Canvas = Canvas(len: nat, pitch: nat, width: nat, cells: seq<seq<Cell>>, font: Font)

  predicate CanvasOk(v: Canvas) {
    v.pitch > 0 && FontOk(v.font) && CellsOk(v.cells)
  }

  /** The paint with only the cells before (r, c) drawn. */
  function PartialPixel(v: Canvas, r: int, c: int, i: int, j: int): Option<u32>
    requires CanvasOk(v)
  {
    var under := Cleared(v.len, v.pitch, v.width)(i, j);
    if !Fits(v.len, v.pitch, i, j) then under
    else
      var y, x := Quotient(j, v.font.height), Quotient(i, v.font.width);
      if y < |v.cells| && x < |v.cells[y]| && Before(y, x, r, c) then
        CellOver(v.cells[y][x], v.font, Remainder(i, v.font.width), Remainder(j, v.font.height),
                 FillReaches(v.len, v.pitch, v.font.width, j), under)
      else under
  }

  function PartialPaint(v: Canvas, r: int, c: int): Paint
    requires CanvasOk(v)
  {
    (i, j) => PartialPixel(v, r, c, i, j)
  }

  /** All cells drawn. */
  function PicturePaint(v: Canvas): Paint
    requires CanvasOk(v)
  {
    PartialPaint(v, |v.cells|, 0)
  }

  /** The grid can be drawn: its columns fit a row of the buffer, and no cell that has
      a background overruns it. */
  predicate GridFits(len: nat, pitch: nat, f: Font, cols: nat, cells: seq<seq<Cell>>) {
    && 0 < pitch && cols * f.width * 4 <= pitch
    && forall r, c :: 0 <= r < |cells| && 0 <= c < |cells[r]| && cells[r][c].bg.Some? ==>
         !CellOverruns(len, pitch, f, r, c)
  }

  /** Which holds for every contents on a buffer that the grid does not overrun. */
  lemma NoOverrunGridFits(len: nat, pitch: nat, f: Font, cols: nat, cells: seq<seq<Cell>>)
    requires FontOk(f) && 0 < pitch && cols * f.width * 4 <= pitch
    requires forall r :: 0 <= r < |cells| ==> |cells[r]| == cols
    requires !Overruns(len, pitch, f, cols, |cells|)
    ensures GridFits(len, pitch, f, cols, cells)
  {
    forall r, c | 0 <= r < |cells| && 0 <= c < |cells[r]|
      ensures !CellOverruns(len, pitch, f, r, c)
    {
      NoOverrunOfCell(len, pitch, f, cols, |cells|, r, c);
    }
  }

  /** The paint after the background of a cell has been filled. */
  function Filled(p: Paint, cell: Cell, v: Canvas, r: nat, c: nat): Paint
    requires CanvasOk(v) && CellOk(cell)
  {
    var f := v.font;
    if cell.bg.None? then p
    else Stamp(p, c * f.width, r * f.height, f.width, f.height, 0, PALETTE[cell.bg.value],
               FillMask(v.len, v.pitch, f.width, r * f.height))
  }

  /** The paint after its glyph has been drawn, too. */
  function Drawn(p: Paint, cell: Cell, v: Canvas, r: nat, c: nat): Paint
    requires CanvasOk(v) && CellOk(cell)
  {
    var f := v.font;
    var q := Filled(p, cell, v, r, c);
    if cell.ch == SPACE then q
    else Stamp(q, c * f.width, r * f.height, f.width, f.height, 0,
               if cell.fg.Some? then PALETTE[cell.fg.value] else FG,
               GlyphMask(f, cell.ch, v.len, v.pitch, c * f.width, r * f.height))
  }

  /** The pixel (i, j) is one of the cell (r, c). */
  predicate InCell(f: Font, r: nat, c: nat, i: nat, j: nat)
    requires FontOk(f)
  {
    j / f.height == r && i / f.width == c
  }

  lemma InCellSpan(f: Font, r: nat, c: nat, i: nat, j: nat)
    requires FontOk(f)
    ensures InCell(f, r, c, i, j) <==>
      c * f.width <= i < c * f.width + f.width && r * f.height <= j < r * f.height + f.height
    ensures InCell(f, r, c, i, j) ==> i % f.width == i - c * f.width && j % f.height == j - r * f.height
  {
    SpanDiv(i, f.width, c);
    SpanDiv(j, f.height, r);
  }

  /** Outside its rectangle a cell paints nothing. */
  lemma DrawnOutside(p: Paint, cell: Cell, v: Canvas, r: nat, c: nat, i: nat, j: nat)
    requires CanvasOk(v) && CellOk(cell) && !InCell(v.font, r, c, i, j)
    ensures Drawn(p, cell, v, r, c)(i, j) == p(i, j)
  {
    InCellSpan(v.font, r, c, i, j);
  }

  /** Inside, where pixels fit, it paints over what was there; where they do not, and
      no fill reaches them, it paints nothing. */
  lemma DrawnInside(p: Paint, cell: Cell, v: Canvas, r: nat, c: nat, i: nat, j: nat)
    requires CanvasOk(v) && CellOk(cell) && InCell(v.font, r, c, i, j)
    ensures Fits(v.len, v.pitch, i, j) ==>
      Drawn(p, cell, v, r, c)(i, j)
      == CellOver(cell, v.font, i % v.font.width, j % v.font.height,
                  FillReaches(v.len, v.pitch, v.font.width, j), p(i, j))
    ensures !Fits(v.len, v.pitch, i, j) && (cell.bg.None? || !FillReaches(v.len, v.pitch, v.font.width, j)) ==>
      Drawn(p, cell, v, r, c)(i, j) == p(i, j)
  {
    InCellSpan(v.font, r, c, i, j);
  }

  lemma DrawnOffPlane(p: Paint, cell: Cell, v: Canvas, r: nat, c: nat, i: int, j: int)
    requires CanvasOk(v) && CellOk(cell) && (i < 0 || j < 0)
    ensures Drawn(p, cell, v, r, c)(i, j) == p(i, j)
  {
    assert 0 <= c * v.font.width && 0 <= r * v.font.height;
  }

  /** Any pixel but those of cell (r, c) is the same before and after that cell. */
  lemma PartialElsewhere(v: Canvas, r: nat, c: nat, i: int, j: int)
    requires CanvasOk(v)
    requires i < 0 || j < 0 || !InCell(v.font, r, c, i, j)
    ensures PartialPixel(v, r, c + 1, i, j) == PartialPixel(v, r, c, i, j)
  {
  }

  /** A pixel of cell (r, c) is cleared before it and, where it fits, the cell over that
      after it. */
  lemma PartialHere(v: Canvas, r: nat, c: nat, i: nat, j: nat)
    requires CanvasOk(v) && r < |v.cells| && c < |v.cells[r]| && InCell(v.font, r, c, i, j)
    ensures PartialPixel(v, r, c, i, j) == Cleared(v.len, v.pitch, v.width)(i, j)
    ensures PartialPixel(v, r, c + 1, i, j) ==
      if !Fits(v.len, v.pitch, i, j) then PartialPixel(v, r, c, i, j)
      else CellOver(v.cells[r][c], v.font, i % v.font.width, j % v.font.height,
                    FillReaches(v.len, v.pitch, v.font.width, j), PartialPixel(v, r, c, i, j))
  {
  }

  /** Drawing one more cell. */
  lemma PartialStep(v: Canvas, cols: nat, r: nat, c: nat, i: int, j: int)
    requires CanvasOk(v) && r < |v.cells| && c < |v.cells[r]| == cols
    requires GridFits(v.len, v.pitch, v.font, cols, v.cells)
    ensures Drawn(PartialPaint(v, r, c), v.cells[r][c], v, r, c)(i, j) == PartialPixel(v, r, c + 1, i, j)
  {
    var p, cell := PartialPaint(v, r, c), v.cells[r][c];
    if i < 0 || j < 0 {
      DrawnOffPlane(p, cell, v, r, c, i, j);
      PartialElsewhere(v, r, c, i, j);
    } else if InCell(v.font, r, c, i, j) {
      DrawnInside(p, cell, v, r, c, i, j);
      PartialHere(v, r, c, i, j);
      if cell.bg.Some? {
        CellPixelFits(v, cols, r, c, i, j);
      }
    } else {
      DrawnOutside(p, cell, v, r, c, i, j);
      PartialElsewhere(v, r, c, i, j);
    }
  }

  lemma CellPixelFits(v: Canvas, cols: nat, r: nat, c: nat, i: nat, j: nat)
    requires CanvasOk(v) && c < cols && cols * v.font.width * 4 <= v.pitch
    requires !CellOverruns(v.len, v.pitch, v.font, r, c) && InCell(v.font, r, c, i, j)
    ensures FillReaches(v.len, v.pitch, v.font.width, j) ==> Fits(v.len, v.pitch, i, j)
  {
    InCellSpan(v.font, r, c, i, j);
    assert (c + 1) * v.font.width == c * v.font.width + v.font.width;
    assert (r + 1) * v.font.height == r * v.font.height + v.font.height;
    MulLe(v.font.width, c + 1, cols);
    ReachedFitsUnlessOverrun(v.len, v.pitch, v.font, r, c, i, j);
  }

  /** Draws the cell at (r, c) once all cells before it are drawn. */
  method DrawCell(buf: array<u8>, pitch: nat, f: Font, cell: Cell, r: nat, c: nat,
                  ghost orig: seq<u8>, ghost v: Canvas, ghost cols: nat)
    requires CanvasOk(v) && v.len == buf.Length && v.pitch == pitch && v.font == f
    requires r < |v.cells| && c < |v.cells[r]| == cols && cell == v.cells[r][c]
    requires GridFits(buf.Length, pitch, f, cols, v.cells)
    requires Painting(buf, orig, pitch, PartialPaint(v, r, c))
    modifies buf
    ensures Painting(buf, orig, pitch, PartialPaint(v, r, c + 1))
  {
    ghost var p := PartialPaint(v, r, c);
    ColumnsFit(pitch, f, cols, c);
    CellSpan(f.width, cols, c, f.width - 1);
    var ox, oy := c * f.width, r * f.height;
    if cell.bg.Some? {
      NoOverrunFits(buf.Length, pitch, f, r, c);
      FillCell(buf, pitch, PALETTE[cell.bg.value], ox, oy, f.width, f.height, orig, p);
    }
    if cell.ch != SPACE {
      var fg := if cell.fg.Some? then PALETTE[cell.fg.value] else FG;
      BlitGlyph(buf, pitch, f, cell.ch, fg, ox, oy, orig, Filled(p, cell, v, r, c));
    }
    NextCellPainting(buf, orig, v, cols, r, c);
  }

  lemma NextCellPainting(buf: array<u8>, orig: seq<u8>, v: Canvas, cols: nat, r: nat, c: nat)
    requires CanvasOk(v) && r < |v.cells| && c < |v.cells[r]| == cols
    requires GridFits(v.len, v.pitch, v.font, cols, v.cells)
    requires Painting(buf, orig, v.pitch, Drawn(PartialPaint(v, r, c), v.cells[r][c], v, r, c))
    ensures Painting(buf, orig, v.pitch, PartialPaint(v, r, c + 1))
  {
    var q := Drawn(PartialPaint(v, r, c), v.cells[r][c], v, r, c);
    forall i, j
      ensures q(i, j) == PartialPaint(v, r, c + 1)(i, j)
    {
      PartialStep(v, cols, r, c, i, j);
    }
    SamePaint(buf, orig, v.pitch, q, PartialPaint(v, r, c + 1));
  }

  // ----- What a rendered buffer shows -----

  /** Byte `k` of `orig` painted over with `p`. */
  function PaintedByte(orig: seq<u8>, pitch: nat, p: Paint, k: nat): u8
    requires pitch > 0 && k < |orig|
  {
    var off := k % pitch;
    ByteOf(p(off / 4, k / pitch), orig[k], off % 4)
  }

  /** `orig` painted over with `p`. */
  function Overlaid(orig: seq<u8>, pitch: nat, p: Paint): (buf: seq<u8>)
    requires pitch > 0
    ensures |buf| == |orig|
    ensures forall k :: 0 <= k < |orig| ==> buf[k] == PaintedByte(orig, pitch, p, k)
  {
    seq(|orig|, k requires 0 <= k < |orig| => PaintedByte(orig, pitch, p, k))
  }

  /** The buffer after rendering. */
  function Rendered(orig: seq<u8>, pitch: nat, width: nat, cells: seq<seq<Cell>>, f: Font): seq<u8>
    requires pitch > 0 && FontOk(f) && CellsOk(cells)
  {
    Overlaid(orig, pitch, PicturePaint(Canvas(|orig|, pitch, width, cells, f)))
  }

  /** The visible pixels of a buffer are exactly the picture of the grid. */
  ghost predicate Shows(buf: seq<u8>, pitch: nat, width: nat, height: nat, cells: seq<seq<Cell>>, f: Font)
    requires FontOk(f) && CellsOk(cells)
  {
    forall x, y :: 0 <= x < width && 0 <= y < height ==> PixelIs(buf, pitch, x, y, Picture(cells, f, x, y))
  }

  predicate PixelIs(buf: seq<u8>, pitch: nat, x: nat, y: nat, color: u32) {
    var off := y * pitch + 4 * x;
    off + 4 <= |buf| && forall i :: 0 <= i < 4 ==> buf[off + i] == Le(color, i)
  }

  lemma PaintedPixel(orig: seq<u8>, pitch: nat, p: Paint, x: nat, y: nat, color: u32)
    requires 0 < pitch && Fits(|orig|, pitch, x, y) && p(x, y) == Some(color)
    ensures PixelIs(Overlaid(orig, pitch, p), pitch, x, y, color)
  {
    var buf := Overlaid(orig, pitch, p);
    var off := y * pitch + 4 * x;
    forall i | 0 <= i < 4
      ensures buf[off + i] == Le(color, i)
    {
      PixelBytes(off + i, pitch, x, y);
      assert buf[off + i] == PaintedByte(orig, pitch, p, off + i);
    }
  }

  /** A visible pixel fits, and fills no wider than a row reach its row. */
  lemma VisibleFits(len: nat, pitch: nat, width: nat, height: nat, w: nat, x: nat, y: nat)
    requires 4 * width <= pitch && height * pitch <= len && x < width && y < height && 4 * w <= pitch
    ensures Fits(len, pitch, x, y) && FillReaches(len, pitch, w, y)
  {
    MulLe(pitch, y + 1, height);
    assert (y + 1) * pitch == y * pitch + pitch;
  }

  lemma VisiblePicture(v: Canvas, x: nat, y: nat)
    requires CanvasOk(v) && x < v.width
    requires Fits(v.len, v.pitch, x, y) && FillReaches(v.len, v.pitch, v.font.width, y)
    ensures PicturePaint(v)(x, y) == Some(Picture(v.cells, v.font, x, y))
  {
  }

  /** Rendering shows the picture on all visible pixels, whatever was there before: on
      any mode whose rows are in the buffer, provided a row is as wide as a cell. */
  lemma RenderedShows(orig: seq<u8>, pitch: nat, width: nat, height: nat, cells: seq<seq<Cell>>, f: Font)
    requires FontOk(f) && CellsOk(cells)
    requires 0 < pitch && 4 * width <= pitch && height * pitch <= |orig| && 4 * f.width <= pitch
    ensures Shows(Rendered(orig, pitch, width, cells, f), pitch, width, height, cells, f)
  {
    var v := Canvas(|orig|, pitch, width, cells, f);
    forall x, y | 0 <= x < width && 0 <= y < height
      ensures PixelIs(Rendered(orig, pitch, width, cells, f), pitch, x, y, Picture(cells, f, x, y))
    {
      VisibleFits(|orig|, pitch, width, height, f.width, x, y);
      VisiblePicture(v, x, y);
      PaintedPixel(orig, pitch, PicturePaint(v), x, y, Picture(cells, f, x, y));
    }
  }

  /** Rendering leaves the bytes past the visible part of each row, and past the grid
      if that is wider, as they were. */
  lemma RenderedKeepsPadding(orig: seq<u8>, pitch: nat, width: nat, cells: seq<seq<Cell>>, cols: nat, f: Font, k: nat)
    requires FontOk(f) && CellsOk(cells) && (forall r :: 0 <= r < |cells| ==> |cells[r]| == cols)
    requires 0 < pitch && k < |orig| && k % pitch >= 4 * width && k % pitch >= 4 * (cols * f.width)
    ensures Rendered(orig, pitch, width, cells, f)[k] == orig[k]
  {
    var v := Canvas(|orig|, pitch, width, cells, f);
    var i, j := k % pitch / 4, k / pitch;
    assert i >= width && i >= cols * f.width;
    PastTheGrid(i, f.width, cols);
    assert PicturePaint(v)(i, j) == None;
    assert Overlaid(orig, pitch, PicturePaint(v))[k] == PaintedByte(orig, pitch, PicturePaint(v), k);
  }

  lemma PastTheGrid(i: nat, w: nat, cols: nat)
    requires w > 0 && i >= cols * w
    ensures i / w >= cols
  {
    DivModSplit(i, w);
    if i / w < cols {
      MulLe(w, i / w + 1, cols);
    }
  }
}
