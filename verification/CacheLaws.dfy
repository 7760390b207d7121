/** The framebuffer as a cache of the terminal: it is repainted only when the
    terminal is dirty, yet shows the current picture. */
module CacheLaws {
  import opened Primitives
  import opened Palette
  import opened Screen
  import opened TerminalSpec
  import opened Framebuffer
  import opened DrmSpec
  import opened EventLoop

  /** A buffer of `len` bytes holds every pixel of mode `m`. */
  predicate RoomyBuffer(len: nat, pitch: nat, m: Mode) {
    4 * m.width <= pitch && m.height * pitch <= len
  }

  /** A buffer that is created for the mode picked is roomy. */
  predicate Roomy(a: Answers) {
    Connected(a) && a.create.Some? ==>
      RoomyBuffer(a.create.value.size, a.create.value.pitch, Picked(a.probe.value.1))
  }

  predicate RoomyScanOut(so: ScanOut) {
    RoomyBuffer(|so.pixels|, so.pitch, Mode(so.width, so.height))
  }

  predicate RoomyServer(s: Server) {
    s.drm.scanout.Some? ==> RoomyScanOut(s.drm.scanout.value)
  }

  /** The iteration ends with a repaint. */
  predicate Paints(s: Server, input: Input, f: Font)
    requires ServerOk(s, f)
  {
    var a := Advance(s, input, f);
    !a.saving && a.drm.scanout.Some? && a.term.value.dirty
  }

  /** Any buffer created in this iteration is roomy, and any repaint can be drawn. */
  predicate SafeStep(s: Server, input: Input, f: Font)
    requires ServerOk(s, f)
  {
    && (Due(s, input) && Rebuilds(s.drm, input.answers) ==> Roomy(input.answers))
    && (Paints(s, input, f) ==>
          var a := Advance(s, input, f); Drawable(a.drm.scanout.value, a.term.value, f))
  }

  predicate SafeRun(s: Server, inputs: seq<Input>, f: Font)
    requires ServerOk(s, f)
    decreases |inputs|
  {
    inputs == [] || (SafeStep(s, inputs[0], f) && SafeRun(Iterate(s, inputs[0], f), inputs[1..], f))
  }

  lemma RefreshStaysRoomy(d: Drm, a: Answers)
    requires d.scanout.Some? ==> RoomyScanOut(d.scanout.value)
    requires Rebuilds(d, a) ==> Roomy(a)
    ensures var d' := Refresh(d, a).0; d'.scanout.Some? ==> RoomyScanOut(d'.scanout.value)
  {
  }

  /** The visible pixels are the picture of the terminal. */
  ghost predicate Agrees(s: Server, f: Font)
    requires ServerOk(s, f) && s.drm.scanout.Some?
  {
    var so := s.drm.scanout.value;
    Shows(so.pixels, so.pitch, so.width, so.height, s.term.value.grid.cells, f)
  }

  // ----- When the cache goes stale -----

  /** A refresh that builds a fresh, black buffer at the size already recorded, so
      that no repaint is asked for. */
  predicate Recovers(s: Server, input: Input) {
    && Due(s, input)
    && s.drm.scanout.None?
    && s.mode.Some?
    && Refresh(s.drm, input.answers).1 == Active(s.mode.value)
  }

  /** Stale since a recovery and until the next repaint. */
  predicate StaleAfter(stale: bool, s: Server, input: Input, f: Font)
    requires ServerOk(s, f)
  {
    !Paints(s, input, f) && (stale || Recovers(s, input))
  }

  predicate StaleRun(stale: bool, s: Server, inputs: seq<Input>, f: Font)
    requires ServerOk(s, f)
    decreases |inputs|
  {
    if inputs == [] then stale
    else StaleRun(StaleAfter(stale, s, inputs[0], f), Iterate(s, inputs[0], f), inputs[1..], f)
  }

  // ----- One iteration -----

  /** What holds between iterations. */
  ghost predicate Cached(s: Server, stale: bool, f: Font)
    requires ServerOk(s, f)
  {
    && RoomyServer(s)
    && (!s.saving && s.drm.scanout.Some? ==>
          && !s.term.value.dirty
          && (if stale then s.drm.scanout.value.pixels == Zeros(|s.drm.scanout.value.pixels|) else Agrees(s, f)))
  }

  /** Nothing has asked for a repaint between `s` and `t`. */
  predicate Undisturbed(s: Server, t: Server) {
    t.term.Some? && !t.term.value.dirty ==>
      s.term == t.term && (s.saving ==> t.saving)
  }

  lemma {:induction false} KeysDisturbOnlyDirty(s: Server, keys: seq<KeyRead>)
    ensures var t := KeysStep(s, keys);
      t.drm == s.drm && t.mode == s.mode && Undisturbed(s, t)
    decreases |keys|
  {
    if keys != [] {
      KeysDisturbOnlyDirty(KeyStep(s, keys[0]), keys[1..]);
    }
  }

  lemma OutputDisturbsOnlyDirty(s: Server, output: seq<u8>)
    requires TermReady(s)
    ensures var t := OutputStep(s, output);
      t.drm == s.drm && t.mode == s.mode && t.saving == s.saving && Undisturbed(s, t)
  {
    if s.term.Some? {
      FeedFactors(s.term.value, output);
    }
  }

  lemma AdvanceDisturbsOnlyDirty(s: Server, input: Input, f: Font)
    requires ServerOk(s, f)
    ensures var r := RefreshStep(s, input, f); var a := Advance(s, input, f);
      && a.drm == r.drm
      && (a.term.Some? && !a.term.value.dirty && !a.saving ==> r.term == a.term && !r.saving)
  {
    RefreshStepIsOk(s, input, f);
    var s1 := ExitStep(RefreshStep(s, input, f), input.exited);
    OutputStepIsOk(s1, input.output, f);
    OutputDisturbsOnlyDirty(s1, input.output);
    KeysDisturbOnlyDirty(OutputStep(s1, input.output), input.keys);
  }

  /** A refresh that asks for no repaint either kept the scanout or recovered. */
  lemma RefreshKeepsOrRecovers(s: Server, input: Input, f: Font)
    requires ServerOk(s, f)
    ensures var r := RefreshStep(s, input, f);
      r.drm.scanout.Some? && !r.term.value.dirty && !r.saving ==>
        && s.term == r.term && !s.saving
        && (if Recovers(s, input) then r.drm.scanout.value.pixels == Zeros(|r.drm.scanout.value.pixels|)
            else s.drm.scanout == r.drm.scanout)
  {
    if Due(s, input) {
      RefreshStepIsOk(s, input, f);
      KeptOrRebuilt(s.drm, input.answers);
    }
  }

  /** A scanout after a refresh is the old one, or one that was rebuilt, as black. */
  lemma KeptOrRebuilt(d: Drm, a: Answers)
    ensures var (d', o) := Refresh(d, a);
      && (d'.scanout.Some? ==>
            || d'.scanout == d.scanout
            || (o.Active? && !SameSize(d.scanout, o.mode)
                && d'.scanout.value.pixels == Zeros(|d'.scanout.value.pixels|)))
      && (o.Active? && d.scanout.None? ==> d'.scanout.value.pixels == Zeros(|d'.scanout.value.pixels|))
  {
  }

  /** A repaint that can be drawn shows the picture, whatever was there. */
  lemma RepaintAgrees(s: Server, input: Input, f: Font)
    requires ServerOk(s, f) && RoomyServer(s)
    requires !s.saving && s.drm.scanout.Some? && s.term.value.dirty
    requires Drawable(s.drm.scanout.value, s.term.value, f)
    ensures var t := PaintStep(s, input, f);
      ServerOk(t, f) && RoomyServer(t) && !t.term.value.dirty && Agrees(t, f)
  {
    MulLe(f.width, 1, s.term.value.grid.cols);
    var so := s.drm.scanout.value;
    RenderedShows(so.pixels, so.pitch, so.width, so.height, s.term.value.grid.cells, f);
  }

  lemma AdvanceStaysRoomy(s: Server, input: Input, f: Font)
    requires ServerOk(s, f) && RoomyServer(s)
    requires Due(s, input) && Rebuilds(s.drm, input.answers) ==> Roomy(input.answers)
    ensures RoomyServer(Advance(s, input, f))
  {
    AdvanceDisturbsOnlyDirty(s, input, f);
    if Due(s, input) {
      RefreshStaysRoomy(s.drm, input.answers);
    }
  }

  /** With nothing to repaint, the buffer is what it was, or fresh from a recovery. */
  lemma UnpaintedCaches(s: Server, input: Input, stale: bool, f: Font)
    requires ServerOk(s, f) && Cached(s, stale, f)
    requires var a := Advance(s, input, f);
      !a.saving && a.drm.scanout.Some? && !a.term.value.dirty && RoomyServer(a)
    ensures Cached(Advance(s, input, f), stale || Recovers(s, input), f)
  {
    AdvanceDisturbsOnlyDirty(s, input, f);
    RefreshKeepsOrRecovers(s, input, f);
  }

  lemma IterateCaches(s: Server, input: Input, stale: bool, f: Font)
    requires ServerOk(s, f) && Cached(s, stale, f) && SafeStep(s, input, f)
    ensures Cached(Iterate(s, input, f), StaleAfter(stale, s, input, f), f)
  {
    var a := Advance(s, input, f);
    AdvanceStaysRoomy(s, input, f);
    if Paints(s, input, f) {
      RepaintAgrees(a, input, f);
    } else if !a.saving && a.drm.scanout.Some? {
      UnpaintedCaches(s, input, stale, f);
    }
  }

  lemma {:induction false} RunCaches(s: Server, inputs: seq<Input>, stale: bool, f: Font)
    requires ServerOk(s, f) && Cached(s, stale, f) && SafeRun(s, inputs, f)
    ensures Cached(RunLoop(s, inputs, f), StaleRun(stale, s, inputs, f), f)
    decreases |inputs|
  {
    if inputs != [] {
      IterateCaches(s, inputs[0], stale, f);
      RunCaches(Iterate(s, inputs[0], f), inputs[1..], StaleAfter(stale, s, inputs[0], f), f);
    }
  }

  // ----- The states of a run -----

  predicate SafelyAt(states: seq<Server>, inputs: seq<Input>, i: nat, f: Font)
    requires |states| == |inputs| + 1 && i < |inputs|
  {
    && ServerOk(states[i], f) && RoomyServer(states[i]) && SafeStep(states[i], inputs[i], f)
    && states[i + 1] == Iterate(states[i], inputs[i], f)
  }

  predicate SafeTrail(states: seq<Server>, inputs: seq<Input>, f: Font) {
    |states| == |inputs| + 1 && forall i :: 0 <= i < |inputs| ==> SafelyAt(states, inputs, i, f)
  }

  lemma IterateStaysRoomy(s: Server, input: Input, f: Font)
    requires ServerOk(s, f) && RoomyServer(s) && SafeStep(s, input, f)
    ensures RoomyServer(Iterate(s, input, f))
  {
    AdvanceStaysRoomy(s, input, f);
  }

  /** The states that a safe run goes through. */
  lemma {:induction false} SafeStates(s: Server, inputs: seq<Input>, f: Font) returns (states: seq<Server>)
    requires ServerOk(s, f) && RoomyServer(s) && SafeRun(s, inputs, f)
    ensures SafeTrail(states, inputs, f)
    ensures states[0] == s && states[|inputs|] == RunLoop(s, inputs, f) && RoomyServer(states[|inputs|])
    decreases |inputs|
  {
    if inputs == [] {
      states := [s];
    } else {
      IterateStaysRoomy(s, inputs[0], f);
      var rest := SafeStates(Iterate(s, inputs[0], f), inputs[1..], f);
      states := [s] + rest;
      forall i | 0 <= i < |inputs|
        ensures SafelyAt(states, inputs, i, f)
      {
        if i > 0 {
          assert SafelyAt(rest, inputs[1..], i - 1, f);
        }
      }
    }
  }

  // ----- Whole runs -----

  /** Every visible pixel of the picture is black. */
  ghost predicate AllBlack(s: Server, f: Font)
    requires ServerOk(s, f) && s.drm.scanout.Some?
  {
    var so := s.drm.scanout.value;
    forall x, y :: 0 <= x < so.width && 0 <= y < so.height ==> Picture(s.term.value.grid.cells, f, x, y) == 0
  }

  lemma ZeroPixel(n: nat, pitch: nat, x: nat, y: nat, color: u32)
    requires Fits(n, pitch, x, y)
    ensures PixelIs(Zeros(n), pitch, x, y, color) <==> color == 0
  {
    var buf, off := Zeros(n), y * pitch + 4 * x;
    if PixelIs(buf, pitch, x, y, color) {
      assert Le(color, 0) == buf[off + 0] && Le(color, 1) == buf[off + 1];
      assert Le(color, 2) == buf[off + 2] && Le(color, 3) == buf[off + 3];
    }
  }

  /** A zeroed buffer shows a picture exactly when the picture is black. */
  lemma ZerosShowBlack(s: Server, f: Font)
    requires ServerOk(s, f) && RoomyServer(s) && s.drm.scanout.Some?
    requires s.drm.scanout.value.pixels == Zeros(|s.drm.scanout.value.pixels|)
    ensures Agrees(s, f) <==> AllBlack(s, f)
  {
    var so, cells := s.drm.scanout.value, s.term.value.grid.cells;
    forall x, y | 0 <= x < so.width && 0 <= y < so.height
      ensures PixelIs(so.pixels, so.pitch, x, y, Picture(cells, f, x, y)) <==> Picture(cells, f, x, y) == 0
    {
      VisibleFits(|so.pixels|, so.pitch, so.width, so.height, 0, x, y);
      ZeroPixel(|so.pixels|, so.pitch, x, y, Picture(cells, f, x, y));
    }
  }

  /** After every run, with the screensaver off and a scanout present: the screen is
      the picture of the terminal exactly unless a same-size recovery has not been
      repainted since and the picture is not plain black. */
  lemma CacheAgreesExactlyUnlessStale(at: int, inputs: seq<Input>, f: Font)
    requires FontOk(f) && SafeRun(Started(at), inputs, f)
    ensures var s := RunLoop(Started(at), inputs, f);
      !s.saving && s.drm.scanout.Some? ==>
        (Agrees(s, f) <==> !StaleRun(false, Started(at), inputs, f) || AllBlack(s, f))
  {
    var s := RunLoop(Started(at), inputs, f);
    RunCaches(Started(at), inputs, false, f);
    if s.drm.scanout.Some? && !s.saving && StaleRun(false, Started(at), inputs, f) {
      ZerosShowBlack(s, f);
    }
  }

  /** Every attempt of the run to build a scanout succeeds. */
  predicate BuildsNeverFail(s: Server, inputs: seq<Input>, f: Font)
    requires ServerOk(s, f)
    decreases |inputs|
  {
    inputs == [] || (
      && (Due(s, inputs[0]) && Rebuilds(s.drm, inputs[0].answers) ==> BuildSucceeds(inputs[0].answers))
      && BuildsNeverFail(Iterate(s, inputs[0], f), inputs[1..], f)
    )
  }

  lemma {:induction false} NoFailureNoStale(s: Server, inputs: seq<Input>, f: Font)
    requires ServerOk(s, f)
    requires s.mode.Some? ==> s.drm.scanout.Some?
    requires BuildsNeverFail(s, inputs, f)
    ensures !StaleRun(false, s, inputs, f)
    decreases |inputs|
  {
    if inputs != [] {
      var r := RefreshStep(s, inputs[0], f);
      RefreshPicks(s.drm, inputs[0].answers);
      AdvanceKeepsMode(s, inputs[0], f);
      NoFailureNoStale(Iterate(s, inputs[0], f), inputs[1..], f);
    }
  }

  lemma AdvanceKeepsMode(s: Server, input: Input, f: Font)
    requires ServerOk(s, f)
    ensures Iterate(s, input, f).mode == RefreshStep(s, input, f).mode
    ensures Iterate(s, input, f).drm.scanout.Some? == RefreshStep(s, input, f).drm.scanout.Some?
  {
    RefreshStepIsOk(s, input, f);
    var s1 := ExitStep(RefreshStep(s, input, f), input.exited);
    OutputStepIsOk(s1, input.output, f);
    OutputDisturbsOnlyDirty(s1, input.output);
    KeysDisturbOnlyDirty(OutputStep(s1, input.output), input.keys);
  }

  /** If building a scanout never fails, then after every run, with the screensaver
      off and a scanout present, the screen is the picture of the terminal. */
  lemma CacheAgrees(at: int, inputs: seq<Input>, f: Font)
    requires FontOk(f) && SafeRun(Started(at), inputs, f)
    requires BuildsNeverFail(Started(at), inputs, f)
    ensures var s := RunLoop(Started(at), inputs, f);
      !s.saving && s.drm.scanout.Some? ==> Agrees(s, f)
  {
    RunCaches(Started(at), inputs, false, f);
    NoFailureNoStale(Started(at), inputs, f);
  }

  // ----- Modes with room for a character cell -----

  predicate HoldsCell(m: Mode, f: Font) {
    f.width <= m.width && f.height <= m.height
  }

  /** On such a mode, a buffer that holds every pixel can be drawn on, whatever the
      contents of the grid. */
  lemma WholeCellsAreDrawable(s: Server, f: Font)
    requires ServerOk(s, f) && RoomyServer(s) && s.drm.scanout.Some? && HoldsCell(s.mode.value, f)
    ensures Drawable(s.drm.scanout.value, s.term.value, f)
  {
    var so, m, g := s.drm.scanout.value, s.mode.value, s.term.value.grid;
    QuotientLe(m.width, f.width);
    QuotientLe(m.height, f.height);
    QuotientPositive(m.width, f.width);
    QuotientPositive(m.height, f.height);
    MulLe(so.pitch, m.height / f.height * f.height, m.height);
    WholeRowsDoNotOverrun(|so.pixels|, so.pitch, f, g.cols, g.rows);
    NoOverrunGridFits(|so.pixels|, so.pitch, f, g.cols, g.cells);
  }

  lemma QuotientPositive(a: nat, b: nat)
    requires 0 < b <= a
    ensures a / b >= 1
  {
  }

  predicate WholeAnswers(a: Answers, f: Font) {
    Roomy(a) && (Connected(a) ==> HoldsCell(Picked(a.probe.value.1), f))
  }

  predicate WholeServer(s: Server, f: Font) {
    RoomyServer(s) && (s.mode.Some? ==> HoldsCell(s.mode.value, f))
  }

  lemma WholeRefresh(s: Server, input: Input, f: Font)
    requires ServerOk(s, f) && WholeServer(s, f) && WholeAnswers(input.answers, f)
    ensures var r := RefreshStep(s, input, f); r.mode.Some? ==> HoldsCell(r.mode.value, f)
  {
    RefreshPicks(s.drm, input.answers);
  }

  lemma WholeAdvance(s: Server, input: Input, f: Font)
    requires ServerOk(s, f) && WholeServer(s, f) && WholeAnswers(input.answers, f)
    ensures WholeServer(Advance(s, input, f), f)
  {
    AdvanceStaysRoomy(s, input, f);
    AdvanceKeepsMode(s, input, f);
    WholeRefresh(s, input, f);
  }

  /** With such modes only, a run is safe as soon as the buffers hold their pixels. */
  lemma {:induction false} WholeModesAreSafe(s: Server, inputs: seq<Input>, f: Font)
    requires ServerOk(s, f) && WholeServer(s, f)
    requires forall i :: 0 <= i < |inputs| ==> WholeAnswers(inputs[i].answers, f)
    ensures SafeRun(s, inputs, f)
    decreases |inputs|
  {
    if inputs != [] {
      var a := Advance(s, inputs[0], f);
      WholeAdvance(s, inputs[0], f);
      if a.drm.scanout.Some? {
        WholeCellsAreDrawable(a, f);
      }
      WholeModesAreSafe(Iterate(s, inputs[0], f), inputs[1..], f);
    }
  }

  // ----- The failure is real -----

  /** An iteration in which only the refresh happens. */
  predicate Quiet(s: Server, input: Input) {
    && Due(s, input)
    && !input.exited && input.output == [] && input.keys == []
    && input.later - s.idleSince < IDLE_TIMEOUT
  }

  lemma QuietAdvance(s: Server, input: Input, f: Font)
    requires ServerOk(s, f) && Quiet(s, input)
    requires var o := Refresh(s.drm, input.answers).1; o == Failed || (o.Active? && s.mode == Some(o.mode))
    ensures Advance(s, input, f) == s.(lastRefresh := input.now, drm := Refresh(s.drm, input.answers).0)
  {
  }

  /** The display changes size, the new scanout cannot be built whatever the step that
      fails, the display changes back: the screen stays black, whatever the terminal
      shows. */
  lemma FailureThenRecoveryBlanks(s: Server, fail: Input, back: Input, f: Font)
    requires ServerOk(s, f) && s.drm.scanout.Some? && !s.saving && !s.term.value.dirty
    requires Quiet(s, fail) && Rebuilds(s.drm, fail.answers) && !BuildSucceeds(fail.answers)
    requires Quiet(s.(lastRefresh := fail.now), back) && Connected(back.answers) && back.answers.crtc.Some?
    requires Picked(back.answers.probe.value.1) == s.mode.value && BuildSucceeds(back.answers)
    ensures var t := Iterate(Iterate(s, fail, f), back, f);
      && !t.saving && t.drm.scanout.Some? && t.term == s.term && t.mode == s.mode
      && t.drm.scanout.value.pixels == Zeros(back.answers.create.value.size)
      && StaleRun(false, s, [fail] + [back], f)
  {
    QuietAdvance(s, fail, f);
    var u := Iterate(s, fail, f);
    QuietAdvance(u, back, f);
    StaleFirst(false, s, fail, [back], f);
    RecoveryIsStale(StaleAfter(false, s, fail, f), u, back, f);
  }

  lemma StaleFirst(stale: bool, s: Server, a: Input, rest: seq<Input>, f: Font)
    requires ServerOk(s, f)
    ensures StaleRun(stale, s, [a] + rest, f)
         == StaleRun(StaleAfter(stale, s, a, f), Iterate(s, a, f), rest, f)
  {
    assert ([a] + rest)[1..] == rest;
  }

  lemma RecoveryIsStale(stale: bool, s: Server, a: Input, f: Font)
    requires ServerOk(s, f) && Recovers(s, a) && !Paints(s, a, f)
    ensures StaleRun(stale, s, [a], f)
  {
    StaleFirst(stale, s, a, [], f);
    assert [a] + [] == [a];
  }

  /** A display of one character cell by `n`, answered without failure. */
  function OneCell(n: nat, f: Font): Answers
    requires FontOk(f) && 1 <= n <= 2
  {
    var w := n * f.width;
    Answers(Some((true, [ModeInfo(w, f.height, 0)])), Some(1), Release(true, true, true),
            Some(Dumb(1, 4 * w, f.height * (4 * w))), Some(1), true, Some(1), true, true)
  }

  function Only(a: Answers, now: int): Input {
    Input(now, a, true, false, [], [], now, [], [])
  }

  lemma FirstIteration(f: Font)
    requires FontOk(f)
    ensures var s := Iterate(Started(0), Only(OneCell(1, f), 0), f);
      && s.drm.scanout.Some? && !s.saving && s.lastRefresh == 0 && s.idleSince == 0
      && s.mode == Some(Mode(f.width, f.height))
      && s.term == Some(Fresh(1, 1).(dirty := false))
      && s.pty == Some(WinSize(1, 1))
  {
    var start, input := Started(0), Only(OneCell(1, f), 0);
    var modes := input.answers.probe.value.1;
    assert PickIndex(modes) == 0;
    assert 1 * f.width == f.width;
    assert f.width / f.width == 1 && f.height / f.height == 1;
    var r := RefreshStep(start, input, f);
    assert r.mode == Some(Mode(f.width, f.height));
    assert r.term == Some(Fresh(1, 1));
  }

  lemma OneCellFacts(n: nat, f: Font)
    requires FontOk(f) && 1 <= n <= 2
    ensures Connected(OneCell(n, f)) && BuildSucceeds(OneCell(n, f)) && WholeAnswers(OneCell(n, f), f)
    ensures Picked(OneCell(n, f).probe.value.1) == Mode(n * f.width, f.height)
    ensures WholeAnswers(OneCell(n, f).(create := None), f)
  {
    assert PickIndex(OneCell(n, f).probe.value.1) == 0;
  }

  lemma BlackIsNotBlank(s: Server, f: Font)
    requires ServerOk(s, f) && RoomyServer(s) && s.drm.scanout.Some?
    requires s.drm.scanout.value.pixels == Zeros(|s.drm.scanout.value.pixels|)
    requires s.drm.scanout.value.width > 0 && s.drm.scanout.value.height > 0
    requires s.term.value.grid == BlankGrid(1, 1)
    ensures !Agrees(s, f)
  {
    ZerosShowBlack(s, f);
    assert Picture(s.term.value.grid.cells, f, 0, 0) == BG;
  }

  lemma RunTwo(s: Server, a: Input, b: Input, f: Font)
    requires ServerOk(s, f)
    ensures RunLoop(s, [a] + [b], f) == Iterate(Iterate(s, a, f), b, f)
  {
    RunFirst(s, a, [b], f);
    RunFirst(Iterate(s, a, f), b, [], f);
    assert [b] + [] == [b];
  }

  lemma RunFirst(s: Server, a: Input, rest: seq<Input>, f: Font)
    requires ServerOk(s, f)
    ensures RunLoop(s, [a] + rest, f) == RunLoop(Iterate(s, a, f), rest, f)
  {
  }

  /** A display of one cell, a change of size whose buffer cannot be created, and the
      change back. */
  function ThereAndBack(f: Font): seq<Input>
    requires FontOk(f)
  {
    [Only(OneCell(1, f), 0)] + ([Only(OneCell(2, f).(create := None), 500)] + [Only(OneCell(1, f), 1000)])
  }

  lemma ThereAndBackIsSafe(f: Font)
    requires FontOk(f)
    ensures SafeRun(Started(0), ThereAndBack(f), f)
  {
    OneCellFacts(1, f);
    OneCellFacts(2, f);
    WholeModesAreSafe(Started(0), ThereAndBack(f), f);
  }

  lemma ThereAndBackBlanks(f: Font)
    requires FontOk(f)
    ensures var s := RunLoop(Started(0), ThereAndBack(f), f);
      && !s.saving && s.drm.scanout.Some?
      && s.mode == Some(Mode(f.width, f.height))
      && s.term == Some(Fresh(1, 1).(dirty := false))
      && s.drm.scanout.value.pixels == Zeros(|s.drm.scanout.value.pixels|)
  {
    var first, back := Only(OneCell(1, f), 0), Only(OneCell(1, f), 1000);
    var fail := Only(OneCell(2, f).(create := None), 500);
    OneCellFacts(1, f);
    OneCellFacts(2, f);
    FirstIteration(f);
    var up := Iterate(Started(0), first, f);
    FailureThenRecoveryBlanks(up, fail, back, f);
    RunFirst(Started(0), first, [fail] + [back], f);
    RunTwo(up, fail, back, f);
  }

  /** The agreement does fail, on this run. */
  lemma CacheCanDisagree(f: Font)
    requires FontOk(f)
    ensures SafeRun(Started(0), ThereAndBack(f), f)
    ensures var s := RunLoop(Started(0), ThereAndBack(f), f);
      !s.saving && s.drm.scanout.Some? && !Agrees(s, f)
  {
    ThereAndBackIsSafe(f);
    ThereAndBackBlanks(f);
    RunCaches(Started(0), ThereAndBack(f), false, f);
    BlackIsNotBlank(RunLoop(Started(0), ThereAndBack(f), f), f);
  }
}
