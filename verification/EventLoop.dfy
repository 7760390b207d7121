/** The main loop as a transition system: one iteration per input. */
module EventLoop {
  import opened Primitives
  import opened Screen
  import opened TerminalSpec
  import opened Framebuffer
  import opened DrmSpec
  import opened Keyboard

  /** Milliseconds. */
  const IDLE_TIMEOUT := 600_000
  const REFRESH_INTERVAL := 500

  datatype WinSize = WinSize(cols: u16, rows: u16)

  /** `written` is what has gone to the shell, one entry per forwarded key. */
  datatype Server = Server(
    mode: Option<Mode>,
    term: Option<Term>,
    pty: Option<WinSize>,
    drm: Drm,
    mods: Mods,
    saving: bool,
    idleSince: int,
    lastRefresh: int,
    written: seq<seq<u8>>)

  /** One keyboard that was ready: its event (none on a read error) and the time. */
  datatype KeyRead = KeyRead(ev: Option<KeyEvent>, at: int)

  /** What the world does during one iteration. `saver` is what the screensaver
      draws; `scribble` is what drawing leaves when the grid cannot be drawn. */
  datatype Input = Input(
    now: int,
    answers: Answers,
    spawned: bool,
    exited: bool,
    output: seq<u8>,
    keys: seq<KeyRead>,
    later: int,
    saver: seq<u8>,
    scribble: seq<u8>)

  function Started(at: int): Server {
    Server(None, None, None, OPENED, Mods(false, false), false, at, at - REFRESH_INTERVAL, [])
  }

  // ----- The steps of an iteration -----

  function Columns(m: Mode, f: Font): nat
    requires FontOk(f)
  {
    Max(m.width / f.width, 1)
  }

  function Rows(m: Mode, f: Font): nat
    requires FontOk(f)
  {
    Max(m.height / f.height, 1)
  }

  /** The cast of a size to 16 bits. */
  function Truncated(n: nat): u16 {
    n % 0x1_0000
  }

  /** A new mode: terminal and shell are created or resized, and a repaint is due. */
  function Follow(s: Server, m: Mode, spawned: bool, f: Font): Server
    requires FontOk(f)
  {
    var cols, rows := Columns(m, f), Rows(m, f);
    var term := if s.term.Some? then ResizeTerm(s.term.value, cols, rows) else Fresh(cols, rows);
    var size := WinSize(Truncated(cols), Truncated(rows));
    s.(mode := Some(m),
       term := Some(term.(dirty := true)),
       pty := if s.pty.Some? || spawned then Some(size) else None)
  }

  function OnOutcome(s: Server, o: Outcome, spawned: bool, f: Font): Server
    requires FontOk(f)
  {
    match o
    case Active(m) => if s.mode == Some(m) then s else Follow(s, m, spawned, f)
    case Disconnected => s.(mode := None)
    case Failed => s
  }

  predicate Due(s: Server, input: Input) {
    input.now - s.lastRefresh >= REFRESH_INTERVAL
  }

  function RefreshStep(s: Server, input: Input, f: Font): Server
    requires FontOk(f)
  {
    if !Due(s, input) then s
    else
      var (d, o) := Refresh(s.drm, input.answers);
      OnOutcome(s.(lastRefresh := input.now, drm := d), o, input.spawned, f)
  }

  function ExitStep(s: Server, exited: bool): Server {
    if s.pty.Some? && exited then s.(pty := None) else s
  }

  predicate TermReady(s: Server) {
    s.term.Some? ==> TermOk(s.term.value)
  }

  /** Shell output goes to the terminal. */
  function OutputStep(s: Server, output: seq<u8>): Server
    requires TermReady(s)
  {
    if s.pty.Some? && s.term.Some? then s.(term := Some(FeedAll(s.term.value, output))) else s
  }

  function Dirtied(t: Option<Term>): Option<Term> {
    if t.Some? then Some(t.value.(dirty := true)) else None
  }

  /** A key with output wakes the screen if it was saved, else goes to the shell. */
  function KeyStep(s: Server, k: KeyRead): Server {
    if k.ev.None? then s
    else
      var (mods, out) := Decode(s.mods, k.ev.value);
      if out == [] then s.(mods := mods)
      else if s.saving then s.(mods := mods, idleSince := k.at, saving := false, term := Dirtied(s.term))
      else if s.pty.Some? then s.(mods := mods, idleSince := k.at, written := s.written + [out])
      else s.(mods := mods, idleSince := k.at)
  }

  function KeysStep(s: Server, keys: seq<KeyRead>): Server
    decreases |keys|
  {
    if keys == [] then s else KeysStep(KeyStep(s, keys[0]), keys[1..])
  }

  function IdleStep(s: Server, later: int): Server {
    if !s.saving && later - s.idleSince >= IDLE_TIMEOUT then s.(saving := true) else s
  }

  /** The grid of `t` can be drawn: its columns fit a row of the scanout and no
      background fill leaves the buffer. */
  predicate Drawable(so: ScanOut, t: Term, f: Font) {
    GridFits(|so.pixels|, so.pitch, f, t.grid.cols, t.grid.cells)
  }

  /** Any bytes of the right length may replace the pixels. */
  function Overwritten(pixels: seq<u8>, drawn: seq<u8>): seq<u8> {
    if |drawn| == |pixels| then drawn else pixels
  }

  function WithPixels(s: Server, pixels: seq<u8>): Server
    requires s.drm.scanout.Some?
  {
    s.(drm := s.drm.(scanout := Some(s.drm.scanout.value.(pixels := pixels))))
  }

  function DrawTerm(s: Server, scribble: seq<u8>, f: Font): Server
    requires FontOk(f) && TermReady(s) && s.term.Some? && s.drm.scanout.Some?
  {
    var so, t := s.drm.scanout.value, s.term.value;
    var pixels :=
      if Drawable(so, t, f) then Rendered(so.pixels, so.pitch, so.width, t.grid.cells, f)
      else Overwritten(so.pixels, scribble);
    WithPixels(s.(term := Some(t.(dirty := false))), pixels)
  }

  /** The screensaver, or the terminal if a repaint is due. */
  function PaintStep(s: Server, input: Input, f: Font): Server
    requires FontOk(f) && TermReady(s)
  {
    if s.drm.scanout.None? then s
    else if s.saving then WithPixels(s, Overwritten(s.drm.scanout.value.pixels, input.saver))
    else if s.term.Some? && s.term.value.dirty then DrawTerm(s, input.scribble, f)
    else s
  }

  // ----- Sizes -----

  /** The parts agree on the size of the screen: a scanout has the size recorded as
      the mode; the terminal has the grid of that mode; a shell has the size of the
      terminal, untruncated. */
  predicate SizesAgree(s: Server, f: Font)
    requires FontOk(f)
  {
    && (s.drm.scanout.Some? ==>
          s.mode == Some(Mode(s.drm.scanout.value.width, s.drm.scanout.value.height)))
    && (s.mode.Some? ==>
          && s.mode.value.width < 0x1_0000 && s.mode.value.height < 0x1_0000
          && s.term.Some?
          && s.term.value.grid.cols == Columns(s.mode.value, f)
          && s.term.value.grid.rows == Rows(s.mode.value, f))
    && (s.pty.Some? ==>
          && s.term.Some?
          && s.pty.value.cols == s.term.value.grid.cols
          && s.pty.value.rows == s.term.value.grid.rows)
  }

  predicate ServerOk(s: Server, f: Font) {
    FontOk(f) && TermReady(s) && SizesAgree(s, f)
  }

  lemma ColumnsFit16(m: Mode, f: Font)
    requires FontOk(f) && m.width < 0x1_0000 && m.height < 0x1_0000
    ensures Truncated(Columns(m, f)) == Columns(m, f)
    ensures Truncated(Rows(m, f)) == Rows(m, f)
  {
    QuotientLe(m.width, f.width);
    QuotientLe(m.height, f.height);
  }

  lemma QuotientLe(a: nat, b: nat)
    requires b > 0
    ensures a / b * b <= a
    ensures 0 <= a / b <= a
  {
    MulLe(a / b, 1, b);
  }

  lemma FollowIsOk(s: Server, m: Mode, spawned: bool, f: Font)
    requires FontOk(f) && TermReady(s) && m.width < 0x1_0000 && m.height < 0x1_0000
    requires s.drm.scanout.Some? ==> m == Mode(s.drm.scanout.value.width, s.drm.scanout.value.height)
    ensures ServerOk(Follow(s, m, spawned, f), f)
  {
    ColumnsFit16(m, f);
    if s.term.Some? {
      OnKeepsOk(s.term.value, Size(Columns(m, f), Rows(m, f)));
    }
  }

  /** Every outcome of a refresh, failures at any point included. */
  lemma RefreshStepIsOk(s: Server, input: Input, f: Font)
    requires ServerOk(s, f)
    ensures ServerOk(RefreshStep(s, input, f), f)
  {
    if Due(s, input) {
      var (d, o) := Refresh(s.drm, input.answers);
      RefreshPicks(s.drm, input.answers);
      var s1 := s.(lastRefresh := input.now, drm := d);
      if o.Active? && s.mode != Some(o.mode) {
        FollowIsOk(s1, o.mode, input.spawned, f);
      }
    }
  }

  lemma {:induction false} FeedAllIsOk(t: Term, bytes: seq<u8>)
    requires TermOk(t)
    ensures TermOk(FeedAll(t, bytes))
    ensures FeedAll(t, bytes).grid.cols == t.grid.cols && FeedAll(t, bytes).grid.rows == t.grid.rows
    decreases |bytes|
  {
    if bytes != [] {
      OnKeepsOk(t, Byte(bytes[0]));
      PerformKeepsShape(t.grid, Control.ActionOf(t.control, bytes[0]));
      FeedAllIsOk(Feed(t, bytes[0]), bytes[1..]);
    }
  }

  lemma {:induction false} KeysStepIsOk(s: Server, keys: seq<KeyRead>, f: Font)
    requires ServerOk(s, f)
    ensures ServerOk(KeysStep(s, keys), f)
    decreases |keys|
  {
    if keys != [] {
      KeysStepIsOk(KeyStep(s, keys[0]), keys[1..], f);
    }
  }

  lemma OutputStepIsOk(s: Server, output: seq<u8>, f: Font)
    requires ServerOk(s, f)
    ensures ServerOk(OutputStep(s, output), f)
  {
    if s.term.Some? {
      FeedAllIsOk(s.term.value, output);
    }
  }

  /** Everything before the drawing at the end of an iteration. */
  function Advance(s: Server, input: Input, f: Font): (s': Server)
    requires ServerOk(s, f)
    ensures ServerOk(s', f)
  {
    RefreshStepIsOk(s, input, f);
    var s1 := ExitStep(RefreshStep(s, input, f), input.exited);
    OutputStepIsOk(s1, input.output, f);
    var s2 := OutputStep(s1, input.output);
    KeysStepIsOk(s2, input.keys, f);
    IdleStep(KeysStep(s2, input.keys), input.later)
  }

  function Iterate(s: Server, input: Input, f: Font): (s': Server)
    requires ServerOk(s, f)
    ensures ServerOk(s', f)
  {
    PaintStep(Advance(s, input, f), input, f)
  }

  /** Every run of the loop keeps the sizes in agreement and the terminal well formed,
      whatever the kernel, the shell and the keyboards do. */
  function RunLoop(s: Server, inputs: seq<Input>, f: Font): (s': Server)
    requires ServerOk(s, f)
    ensures ServerOk(s', f)
    decreases |inputs|
  {
    if inputs == [] then s else RunLoop(Iterate(s, inputs[0], f), inputs[1..], f)
  }
}
