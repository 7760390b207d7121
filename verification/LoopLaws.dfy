/** The shell, the kernel's ledger and the history of the screen over runs of the loop. */
module LoopLaws {
  import opened Primitives
  import opened TerminalSpec
  import opened Framebuffer
  import opened DrmSpec
  import opened EventLoop
  import opened KeyLaws
  import opened CacheLaws

  // ----- The shell -----

  /** The refresh of this iteration reports a mode other than the recorded one. */
  predicate ModeChanges(s: Server, input: Input) {
    && Due(s, input)
    && var o := Refresh(s.drm, input.answers).1; o.Active? && s.mode != Some(o.mode)
  }

  lemma {:induction false} KeysKeepShell(s: Server, keys: seq<KeyRead>)
    ensures KeysStep(s, keys).pty == s.pty
    decreases |keys|
  {
    if keys != [] {
      KeysKeepShell(KeyStep(s, keys[0]), keys[1..]);
    }
  }

  /** After the shell has exited, an iteration brings one back exactly when the mode
      changes in it (and the spawn succeeds and it does not exit at once). */
  lemma ShellReturnsOnlyOnModeChange(s: Server, input: Input, f: Font)
    requires ServerOk(s, f) && s.pty.None?
    ensures Iterate(s, input, f).pty.Some? <==> ModeChanges(s, input) && input.spawned && !input.exited
  {
    KeysKeepShell(BeforeKeys(s, input, f), input.keys);
    assert Iterate(s, input, f).pty == Advance(s, input, f).pty;
  }

  predicate ModeNeverChanges(s: Server, inputs: seq<Input>, f: Font)
    requires ServerOk(s, f)
    decreases |inputs|
  {
    inputs == [] || (!ModeChanges(s, inputs[0]) && ModeNeverChanges(Iterate(s, inputs[0], f), inputs[1..], f))
  }

  /** On a display that keeps its mode an exited shell is never replaced. */
  lemma {:induction false} NoModeChangeNoShell(s: Server, inputs: seq<Input>, f: Font)
    requires ServerOk(s, f) && s.pty.None? && ModeNeverChanges(s, inputs, f)
    ensures RunLoop(s, inputs, f).pty.None?
    decreases |inputs|
  {
    if inputs != [] {
      ShellReturnsOnlyOnModeChange(s, inputs[0], f);
      NoModeChangeNoShell(Iterate(s, inputs[0], f), inputs[1..], f);
    }
  }

  /** A display of one cell is connected and scanned out. */
  predicate Showing(s: Server, f: Font)
    requires FontOk(f)
  {
    s.mode == Some(Mode(f.width, f.height)) && SameSize(s.drm.scanout, Mode(f.width, f.height))
  }

  lemma StaysShowing(s: Server, input: Input, f: Font)
    requires ServerOk(s, f) && Showing(s, f) && input.answers == OneCell(1, f)
    ensures !ModeChanges(s, input) && Showing(Iterate(s, input, f), f)
  {
    OneCellFacts(1, f);
    AdvanceKeepsMode(s, input, f);
  }

  lemma ExitLosesShell(s: Server, input: Input, f: Font)
    requires ServerOk(s, f) && !ModeChanges(s, input) && input.exited
    ensures Iterate(s, input, f).pty.None?
  {
    KeysKeepShell(BeforeKeys(s, input, f), input.keys);
    assert Iterate(s, input, f).pty == Advance(s, input, f).pty;
  }

  lemma {:induction false} ShowingNeverChanges(s: Server, inputs: seq<Input>, f: Font)
    requires ServerOk(s, f) && Showing(s, f)
    requires forall i :: 0 <= i < |inputs| ==> inputs[i].answers == OneCell(1, f)
    ensures ModeNeverChanges(s, inputs, f)
    decreases |inputs|
  {
    if inputs != [] {
      StaysShowing(s, inputs[0], f);
      ShowingNeverChanges(Iterate(s, inputs[0], f), inputs[1..], f);
    }
  }

  lemma {:induction false} GoneForGood(s: Server, exit: Input, later: seq<Input>, f: Font)
    requires ServerOk(s, f) && Showing(s, f) && exit.answers == OneCell(1, f) && exit.exited
    requires forall i :: 0 <= i < |later| ==> later[i].answers == OneCell(1, f)
    ensures RunLoop(s, [exit] + later, f).pty.None?
  {
    StaysShowing(s, exit, f);
    ExitLosesShell(s, exit, f);
    ShowingNeverChanges(Iterate(s, exit, f), later, f);
    NoModeChangeNoShell(Iterate(s, exit, f), later, f);
    RunFirst(s, exit, later, f);
  }

  /** A run: a display comes up and a shell with it, the shell exits, and however long
      the display stays as it is, refreshed or not, there is no shell again. */
  lemma {:induction false} ExitedShellStaysGone(later: seq<Input>, f: Font)
    requires FontOk(f)
    requires forall i :: 0 <= i < |later| ==> later[i].answers == OneCell(1, f)
    ensures var up := Only(OneCell(1, f), 0); var exit := Only(OneCell(1, f), 500).(exited := true);
      && Iterate(Started(0), up, f).pty.Some?
      && RunLoop(Started(0), [up] + ([exit] + later), f).pty.None?
  {
    var up, exit := Only(OneCell(1, f), 0), Only(OneCell(1, f), 500).(exited := true);
    FirstIteration(f);
    GoneForGood(Iterate(Started(0), up, f), exit, later, f);
    RunFirst(Started(0), up, [exit] + later, f);
  }

  // ----- Sizes -----

  /** `n` cells of the given size are as many as fit, but at least one. */
  predicate Tiles(n: nat, size: nat, cell: nat) {
    if cell <= size then n * cell <= size < (n + 1) * cell else n == 1
  }

  lemma QuotientTiles(size: nat, cell: nat)
    requires cell > 0
    ensures Tiles(Max(size / cell, 1), size, cell)
  {
    var q := size / cell;
    DivModSplit(size, cell);
    assert (q + 1) * cell == q * cell + cell;
    if cell <= size {
      QuotientPositive(size, cell);
    } else {
      assert q == 0;
    }
  }

  /** Over every run: a scanout has the size of the mode, the grid has as many columns and
      rows as fit on it, and a live shell has been told just that. */
  lemma GridFillsTheScreen(at: int, inputs: seq<Input>, f: Font)
    requires FontOk(f)
    ensures var s := RunLoop(Started(at), inputs, f);
      && (s.drm.scanout.Some? ==>
            s.mode == Some(Mode(s.drm.scanout.value.width, s.drm.scanout.value.height)))
      && (s.mode.Some? ==>
            && s.term.Some?
            && Tiles(s.term.value.grid.cols, s.mode.value.width, f.width)
            && Tiles(s.term.value.grid.rows, s.mode.value.height, f.height))
      && (s.pty.Some? ==>
            s.term.Some? && s.pty == Some(WinSize(s.term.value.grid.cols, s.term.value.grid.rows)))
  {
    var s := RunLoop(Started(at), inputs, f);
    if s.mode.Some? {
      QuotientTiles(s.mode.value.width, f.width);
      QuotientTiles(s.mode.value.height, f.height);
    }
  }

  // ----- The refresh -----

  /** Within half a second of the last refresh the kernel is not asked: whatever it would
      answer, and whether a shell could be started, makes no difference. */
  lemma NoRefreshBeforeItIsDue(s: Server, input: Input, answers: Answers, spawned: bool, f: Font)
    requires ServerOk(s, f) && input.now - s.lastRefresh < 500
    ensures Iterate(s, input, f) == Iterate(s, input.(answers := answers, spawned := spawned), f)
    ensures RefreshStep(s, input, f) == s
  {
    var other := input.(answers := answers, spawned := spawned);
    assert Advance(s, input, f) == Advance(s, other, f);
  }

  /** After that it is: a failure changes nothing but the card; a disconnect forgets the mode
      and keeps terminal and shell; a new mode sizes them, starting what is missing, and
      asks for a repaint. */
  lemma RefreshWhenDue(s: Server, input: Input, f: Font)
    requires ServerOk(s, f) && input.now - s.lastRefresh >= 500
    ensures var r := RefreshStep(s, input, f); var (d, o) := Refresh(s.drm, input.answers);
      && r == s.(lastRefresh := input.now, drm := d, mode := r.mode, term := r.term, pty := r.pty)
      && (o == Failed ==> r.mode == s.mode)
      && (o == Disconnected ==> r.mode == None)
      && (o.Active? ==> r.mode == Some(o.mode))
      && (!o.Active? || s.mode == r.mode ==> r.term == s.term && r.pty == s.pty)
      && (o.Active? && s.mode != r.mode ==>
            && r.term.Some? && r.term.value.dirty
            && (r.pty.Some? <==> s.pty.Some? || input.spawned))
  {
  }

  // ----- The ledger -----

  function IterationLeak(s: Server, input: Input): Resources {
    if Due(s, input) then Leak(s.drm, input.answers) else NONE_HELD
  }

  function RunLeak(s: Server, inputs: seq<Input>, f: Font): Resources
    requires ServerOk(s, f)
    decreases |inputs|
  {
    if inputs == [] then NONE_HELD
    else Union(IterationLeak(s, inputs[0]), RunLeak(Iterate(s, inputs[0], f), inputs[1..], f))
  }

  predicate KernelRunOk(s: Server, inputs: seq<Input>, f: Font)
    requires ServerOk(s, f)
    decreases |inputs|
  {
    inputs == [] ||
      (&& (Due(s, inputs[0]) ==> KernelOk(s.drm, inputs[0].answers))
       && KernelRunOk(Iterate(s, inputs[0], f), inputs[1..], f))
  }

  lemma IterationBalances(s: Server, input: Input, lost: Resources, f: Font)
    requires ServerOk(s, f) && Balanced(s.drm, lost) && (Due(s, input) ==> KernelOk(s.drm, input.answers))
    ensures Balanced(Iterate(s, input, f).drm, Union(lost, IterationLeak(s, input)))
  {
    var r := RefreshStep(s, input, f);
    assert Balanced(r.drm, Union(lost, IterationLeak(s, input))) by {
      UnionAssoc(lost, NONE_HELD, NONE_HELD);
      if Due(s, input) {
        RefreshBalances(s.drm, input.answers, lost);
      }
    }
    AdvanceDisturbsOnlyDirty(s, input, f);
    PaintKeepsOwnership(Advance(s, input, f), input, f);
  }

  /** Drawing changes pixels only. */
  lemma PaintKeepsOwnership(s: Server, input: Input, f: Font)
    requires ServerOk(s, f)
    ensures var t := PaintStep(s, input, f);
      Owned(t.drm.scanout) == Owned(s.drm.scanout) && t.drm.ledger == s.drm.ledger
  {
  }

  /** Drawing and the screensaver included, every run of the loop keeps the ledger
      balanced. */
  lemma {:induction false} LoopBalances(s: Server, inputs: seq<Input>, lost: Resources, f: Font)
    requires ServerOk(s, f) && Balanced(s.drm, lost) && KernelRunOk(s, inputs, f)
    ensures Balanced(RunLoop(s, inputs, f).drm, Union(lost, RunLeak(s, inputs, f)))
    decreases |inputs|
  {
    UnionAssoc(lost, NONE_HELD, NONE_HELD);
    if inputs != [] {
      var s1 := Iterate(s, inputs[0], f);
      IterationBalances(s, inputs[0], lost, f);
      LoopBalances(s1, inputs[1..], Union(lost, IterationLeak(s, inputs[0])), f);
      UnionAssoc(lost, IterationLeak(s, inputs[0]), RunLeak(s1, inputs[1..], f));
    }
  }

  /** The calls made in this run leave nothing behind. */
  predicate LoopClean(s: Server, inputs: seq<Input>, f: Font)
    requires ServerOk(s, f)
    decreases |inputs|
  {
    inputs == [] ||
      (&& (Due(s, inputs[0]) ==> StepClean(s.drm, inputs[0].answers))
       && LoopClean(Iterate(s, inputs[0], f), inputs[1..], f))
  }

  lemma {:induction false} RunLeakExactlyWhen(s: Server, inputs: seq<Input>, f: Font)
    requires ServerOk(s, f)
    ensures RunLeak(s, inputs, f) == NONE_HELD <==> LoopClean(s, inputs, f)
    decreases |inputs|
  {
    if inputs != [] {
      var s1 := Iterate(s, inputs[0], f);
      LeakIsNothing(s.drm, inputs[0].answers);
      RunLeakExactlyWhen(s1, inputs[1..], f);
      UnionIsNothing(IterationLeak(s, inputs[0]), RunLeak(s1, inputs[1..], f));
    }
  }

  /** From the start of the program, over every run: live is exactly what the scanout
      owns if and only if no call that was made left anything behind. */
  lemma LoopIsCleanExactlyWhen(at: int, inputs: seq<Input>, f: Font)
    requires FontOk(f) && KernelRunOk(Started(at), inputs, f)
    ensures var d := RunLoop(Started(at), inputs, f).drm;
      d.ledger.live == Owned(d.scanout) <==> LoopClean(Started(at), inputs, f)
  {
    var s, lost := Started(at), RunLeak(Started(at), inputs, f);
    LoopBalances(s, inputs, NONE_HELD, f);
    assert Union(NONE_HELD, lost) == lost;
    NothingLost(Owned(RunLoop(s, inputs, f).drm.scanout), lost);
    RunLeakExactlyWhen(s, inputs, f);
  }

  // ----- The history of the screen -----

  const SEED := Fresh(1, 1)

  /** The terminal, or a blank one before the first display. */
  function TermOf(s: Server): Term {
    if s.term.Some? then s.term.value else SEED
  }

  function BytesAsEvents(bytes: seq<u8>): seq<Event> {
    seq(|bytes|, i requires 0 <= i < |bytes| => Byte(bytes[i]))
  }

  /** What the refresh of one iteration contributes: the grid of a new mode. */
  function SizeEvents(s: Server, input: Input, f: Font): seq<Event>
    requires ServerOk(s, f)
  {
    if !ModeChanges(s, input) then []
    else
      var m := Refresh(s.drm, input.answers).1.mode;
      [Event.Size(Columns(m, f), Rows(m, f))]
  }

  /** The size change and the shell bytes of one iteration. */
  function IterationEvents(s: Server, input: Input, f: Font): seq<Event>
    requires ServerOk(s, f)
  {
    var r := ExitStep(RefreshStep(s, input, f), input.exited);
    SizeEvents(s, input, f) + (if r.pty.Some? then BytesAsEvents(input.output) else [])
  }

  function History(s: Server, inputs: seq<Input>, f: Font): seq<Event>
    requires ServerOk(s, f)
    decreases |inputs|
  {
    if inputs == [] then [] else IterationEvents(s, inputs[0], f) + History(Iterate(s, inputs[0], f), inputs[1..], f)
  }

  /** Equal but for the repaint flag. */
  predicate Same(t: Term, u: Term) {
    t.control == u.control && t.grid == u.grid
  }

  lemma {:induction false} ReplaySame(t: Term, u: Term, es: seq<Event>)
    requires TermOk(t) && TermOk(u) && Same(t, u)
    ensures Same(Replay(t, es), Replay(u, es))
    decreases |es|
  {
    if es != [] {
      OnKeepsOk(t, es[0]);
      OnKeepsOk(u, es[0]);
      ReplaySame(On(t, es[0]), On(u, es[0]), es[1..]);
    }
  }

  lemma {:induction false} ReplayAppend(t: Term, a: seq<Event>, b: seq<Event>)
    requires TermOk(t)
    ensures TermOk(Replay(t, a)) && Replay(t, a + b) == Replay(Replay(t, a), b)
    decreases |a|
  {
    ReplayIsSafe(t, a);
    if a == [] {
      assert a + b == b;
    } else {
      OnKeepsOk(t, a[0]);
      assert (a + b)[1..] == a[1..] + b;
      ReplayAppend(On(t, a[0]), a[1..], b);
    }
  }

  /** Histories that lead from `s` to `t` and from `t` to `u` lead from `s` to `u`. */
  lemma HistoriesJoin(s: Server, t: Server, u: Server, a: seq<Event>, b: seq<Event>, f: Font)
    requires ServerOk(s, f) && ServerOk(t, f)
    requires Same(TermOf(t), Replay(TermOf(s), a)) && Same(TermOf(u), Replay(TermOf(t), b))
    ensures Same(TermOf(u), Replay(TermOf(s), a + b))
  {
    ReplayAppend(TermOf(s), a, b);
    ReplaySame(TermOf(t), Replay(TermOf(s), a), b);
  }

  lemma {:induction false} ReplayBytes(t: Term, bytes: seq<u8>)
    requires TermOk(t)
    ensures Replay(t, BytesAsEvents(bytes)) == FeedAll(t, bytes)
    decreases |bytes|
  {
    if bytes != [] {
      OnKeepsOk(t, Byte(bytes[0]));
      assert BytesAsEvents(bytes)[1..] == BytesAsEvents(bytes[1..]);
      ReplayBytes(Feed(t, bytes[0]), bytes[1..]);
    }
  }

  lemma {:induction false} KeysKeepTerm(s: Server, keys: seq<KeyRead>)
    ensures KeysStep(s, keys).term.Some? == s.term.Some?
    ensures Same(TermOf(KeysStep(s, keys)), TermOf(s))
    decreases |keys|
  {
    if keys != [] {
      KeysKeepTerm(KeyStep(s, keys[0]), keys[1..]);
    }
  }

  lemma SizeIsHistory(s: Server, input: Input, f: Font)
    requires ServerOk(s, f)
    ensures Same(TermOf(RefreshStep(s, input, f)), Replay(TermOf(s), SizeEvents(s, input, f)))
  {
  }

  lemma IterationIsHistory(s: Server, input: Input, f: Font)
    requires ServerOk(s, f)
    ensures Same(TermOf(Iterate(s, input, f)), Replay(TermOf(s), IterationEvents(s, input, f)))
  {
    RefreshStepIsOk(s, input, f);
    SizeIsHistory(s, input, f);
    var r := ExitStep(RefreshStep(s, input, f), input.exited);
    OutputJoinsHistory(s, r, SizeEvents(s, input, f), input.output, f);
    AfterOutputIsHistory(s, input, f);
  }

  lemma OutputJoinsHistory(s: Server, r: Server, size: seq<Event>, output: seq<u8>, f: Font)
    requires ServerOk(s, f) && ServerOk(r, f)
    requires Same(TermOf(r), Replay(TermOf(s), size))
    ensures Same(TermOf(OutputStep(r, output)),
                 Replay(TermOf(s), size + if r.pty.Some? then BytesAsEvents(output) else []))
  {
    OutputIsHistory(r, output, f);
    HistoriesJoin(s, r, OutputStep(r, output), size, if r.pty.Some? then BytesAsEvents(output) else [], f);
  }

  /** Keys and drawing add nothing to the history. */
  lemma AfterOutputIsHistory(s: Server, input: Input, f: Font)
    requires ServerOk(s, f)
    ensures Same(TermOf(Iterate(s, input, f)), TermOf(BeforeKeys(s, input, f)))
  {
    KeysKeepTerm(BeforeKeys(s, input, f), input.keys);
    PaintKeepsTerm(Advance(s, input, f), input, f);
  }

  lemma OutputIsHistory(s: Server, output: seq<u8>, f: Font)
    requires ServerOk(s, f)
    ensures TermOf(OutputStep(s, output))
         == Replay(TermOf(s), if s.pty.Some? then BytesAsEvents(output) else [])
  {
    ReplayBytes(TermOf(s), output);
  }

  lemma PaintKeepsTerm(s: Server, input: Input, f: Font)
    requires ServerOk(s, f)
    ensures Same(TermOf(PaintStep(s, input, f)), TermOf(s))
  {
  }

  /** The terminal after any run is its history replayed: the size changes and the
      shell's bytes in their order. Batches, keys, the screensaver and failures of the
      kernel leave no trace in it. */
  lemma {:induction false} TermIsHistory(s: Server, inputs: seq<Input>, f: Font)
    requires ServerOk(s, f)
    ensures Same(TermOf(RunLoop(s, inputs, f)), Replay(TermOf(s), History(s, inputs, f)))
    decreases |inputs|
  {
    if inputs != [] {
      var s1, es := Iterate(s, inputs[0], f), IterationEvents(s, inputs[0], f);
      IterationIsHistory(s, inputs[0], f);
      TermIsHistory(s1, inputs[1..], f);
      HistoriesJoin(s, s1, RunLoop(s1, inputs[1..], f), es, History(s1, inputs[1..], f), f);
    }
  }

  /** End to end, over every run: the pixels on the screen are the picture of the
      replayed history exactly unless the screen is stale and the picture not black. */
  lemma ScreenIsHistory(at: int, inputs: seq<Input>, f: Font)
    requires FontOk(f) && SafeRun(Started(at), inputs, f)
    ensures TermOk(SEED) && TermOk(Replay(SEED, History(Started(at), inputs, f)))
    ensures var s := RunLoop(Started(at), inputs, f);
      !s.saving && s.drm.scanout.Some? ==>
        var so := s.drm.scanout.value;
        Shows(so.pixels, so.pitch, so.width, so.height,
              Replay(SEED, History(Started(at), inputs, f)).grid.cells, f)
        <==> !StaleRun(false, Started(at), inputs, f) || AllBlack(s, f)
  {
    CacheAgreesExactlyUnlessStale(at, inputs, f);
    TermIsHistory(Started(at), inputs, f);
    ReplayIsSafe(SEED, History(Started(at), inputs, f));
  }
}
