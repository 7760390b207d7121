/** A turn of the main loop over real parts: a terminal, a card and a keyboard decoder that
    are updated in place. */
module Machine {
  import opened Primitives
  import opened TerminalSpec
  import opened TerminalObject
  import opened Framebuffer
  import opened DrmSpec
  import opened DrmObject
  import opened Keyboard
  import opened EventLoop
  import opened CacheLaws

  class DisplayServer {
    const font: Font
    const card: Card
    const decoder: Decoder
    var mode: Option<Mode>
    var term: Terminal?
    var pty: Option<WinSize>
    var saving: bool
    var idleSince: int
    var lastRefresh: int
    var written: seq<seq<u8>>

    ghost function TermRepr(): set<object>
      reads this, term
    {
      if term == null then {} else var t: Terminal := term; {t, t.cells}
    }

    ghost function Repr(): set<object>
      reads this, card, term
    {
      {this, card, decoder} + card.Memory() + TermRepr()
    }

    ghost function View(): Server
      reads this, card, decoder, term, card.Memory()
    {
      Server(mode, if term == null then None else Some(term.View()), pty, card.View(), decoder.View(),
             saving, idleSince, lastRefresh, written)
    }

    /** The parts are separate, well formed, and agree with each other. */
    ghost predicate Valid()
      reads this, card, decoder, term, card.Memory(), TermRepr()
    {
      && TermApart()
      && ServerOk(View(), font)
      && RoomyServer(View())
    }

    constructor (f: Font, now: int)
      requires FontOk(f)
      ensures Valid() && fresh(Repr())
      ensures font == f && View() == Started(now)
    {
      font := f;
      card := new Card();
      decoder := new Decoder();
      mode := None;
      term := null;
      pty := None;
      saving := false;
      idleSince := now;
      lastRefresh := now - REFRESH_INTERVAL;
      written := [];
    }

    /** The terminal is well formed and shares no memory with the scanout. */
    ghost predicate TermApart()
      reads this, card, term, TermRepr()
    {
      term != null ==> term.Valid() && card.Memory() !! TermRepr()
    }

    /** Creates or resizes the terminal and marks it for repainting. */
    method FitTerminal(cols: nat, rows: nat)
      requires TermApart() && cols >= 1 && rows >= 1
      modifies this`term, term
      ensures TermApart() && term != null && fresh(TermRepr() - old(TermRepr()))
      ensures term.View() ==
        (if old(term) == null then Fresh(cols, rows) else ResizeTerm(old(term.View()), cols, rows)).(dirty := true)
      ensures card.Memory() == old(card.Memory())
    {
      if term != null {
        term.Resize(cols, rows);
      } else {
        term := new Terminal(cols, rows);
      }
      term.dirty := true;
    }

    /** Follows a new mode. */
    method FollowMode(m: Mode, spawned: bool)
      requires FontOk(font) && TermApart()
      modifies this`mode, this`term, this`pty, term
      ensures TermApart() && fresh(TermRepr() - old(TermRepr())) && card.Memory() == old(card.Memory())
      ensures View() == Follow(old(View()), m, spawned, font)
    {
      FitShell(m, spawned);
      FitTerminal(Columns(m, font), Rows(m, font));
    }

    /** Records the mode, and resizes the shell or starts one. */
    method FitShell(m: Mode, spawned: bool)
      requires FontOk(font)
      modifies this`mode, this`pty
      ensures View() == old(View()).(mode := Some(m), pty :=
        if old(pty).Some? || spawned
        then Some(WinSize(Truncated(Columns(m, font)), Truncated(Rows(m, font)))) else None)
    {
      mode := Some(m);
      var size := WinSize(Truncated(Columns(m, font)), Truncated(Rows(m, font)));
      if pty.Some? {
        pty := Some(size);
      } else if spawned {
        pty := Some(size);
      }
    }

    /** Notes the time and refreshes the card. */
    method Probe(now: int, a: Answers) returns (o: Outcome)
      requires TermApart()
      modifies this`lastRefresh, card
      ensures TermApart() && TermRepr() == old(TermRepr())
      ensures fresh(card.Memory() - old(card.Memory()))
      ensures View() == old(View()).(lastRefresh := now, drm := Refresh(old(View().drm), a).0)
      ensures o == Refresh(old(View().drm), a).1
    {
      lastRefresh := now;
      o := card.Refresh(a);
    }

    /** Re-probes the display when it is time to. */
    method RefreshDisplay(input: Input)
      requires FontOk(font) && TermApart()
      modifies this, card, term
      ensures TermApart() && fresh(TermRepr() - old(TermRepr()))
      ensures fresh(card.Memory() - old(card.Memory()))
      ensures View() == RefreshStep(old(View()), input, font)
    {
      if input.now - lastRefresh >= REFRESH_INTERVAL {
        var o := Probe(input.now, input.answers);
        TakeOutcome(o, input.spawned);
      }
    }

    /** Acts on what a refresh has reported. */
    method TakeOutcome(o: Outcome, spawned: bool)
      requires FontOk(font) && TermApart()
      modifies this`mode, this`term, this`pty, term
      ensures TermApart() && fresh(TermRepr() - old(TermRepr())) && card.Memory() == old(card.Memory())
      ensures View() == OnOutcome(old(View()), o, spawned, font)
    {
      match o
      case Active(m) =>
        if mode != Some(m) {
          FollowMode(m, spawned);
        }
      case Disconnected =>
        mode := None;
      case Failed =>
    }

    method ReapShell(exited: bool)
      modifies this`pty
      ensures View() == ExitStep(old(View()), exited)
    {
      if pty.Some? && exited {
        pty := None;
      }
    }

    method TakeOutput(output: seq<u8>)
      requires TermApart() && TermReady(View())
      modifies term, TermRepr()
      ensures TermApart() && TermRepr() == old(TermRepr())
      ensures View() == OutputStep(old(View()), output)
    {
      if pty.Some? && term != null {
        term.ProcessBytes(output);
      }
    }

    method TakeKey(k: KeyRead)
      requires TermApart()
      modifies this`idleSince, this`saving, this`written, decoder, term
      ensures TermApart() && TermRepr() == old(TermRepr())
      ensures View() == KeyStep(old(View()), k)
    {
      if k.ev.None? {
        return;
      }
      var out := decoder.ReadEvent(k.ev.value);
      if out != [] {
        Deliver(out, k.at);
      }
    }

    /** Key output wakes the screen, or goes to the shell if there is one. */
    method Deliver(out: seq<u8>, at: int)
      requires TermApart()
      modifies this`idleSince, this`saving, this`written, term
      ensures TermApart() && TermRepr() == old(TermRepr())
      ensures View() ==
        if old(saving) then old(View()).(idleSince := at, saving := false, term := Dirtied(old(View().term)))
        else if old(pty).Some? then old(View()).(idleSince := at, written := old(written) + [out])
        else old(View()).(idleSince := at)
    {
      idleSince := at;
      if saving {
        saving := false;
        if term != null {
          term.dirty := true;
        }
      } else if pty.Some? {
        written := written + [out];
      }
    }

    /** One pass over the keyboards that are ready. */
    method TakeKeys(keys: seq<KeyRead>)
      requires TermApart()
      modifies this`idleSince, this`saving, this`written, decoder, term
      ensures TermApart() && TermRepr() == old(TermRepr())
      ensures View() == KeysStep(old(View()), keys)
    {
      for i := 0 to |keys|
        invariant TermApart() && TermRepr() == old(TermRepr())
        invariant KeysStep(old(View()), keys) == KeysStep(View(), keys[i..])
      {
        assert keys[i..][1..] == keys[i + 1..];
        TakeKey(keys[i]);
      }
      assert keys[|keys|..] == [];
    }

    method CheckIdle(later: int)
      modifies this`saving
      ensures View() == IdleStep(old(View()), later)
    {
      if !saving && later - idleSince >= IDLE_TIMEOUT {
        saving := true;
      }
    }

    /** Whatever the screensaver draws. */
    method DrawSaver(pixels: array<u8>, saver: seq<u8>)
      modifies pixels
      ensures pixels[..] == Overwritten(old(pixels[..]), saver)
    {
      if |saver| == pixels.Length {
        for i := 0 to pixels.Length
          invariant forall k :: 0 <= k < i ==> pixels[k] == saver[k]
        {
          pixels[i] := saver[i];
        }
      }
    }

    /** The screensaver, or the terminal if it is dirty. */
    method Paint(input: Input)
      requires Valid()
      requires card.scanout.Some? && !saving && term != null && term.dirty ==>
        Drawable(View().drm.scanout.value, term.View(), font)
      modifies term, card.Memory()
      ensures Valid() && Repr() == old(Repr())
      ensures View() == PaintStep(old(View()), input, font)
    {
      if card.scanout.None? {
        return;
      }
      var so := card.scanout.value;
      if saving {
        DrawSaver(so.pixels, input.saver);
      } else if term != null && term.dirty {
        term.Render(so.pixels, so.pitch, so.width, font);
      }
    }

    /** The shell: gone, or heard. */
    method HearShell(exited: bool, output: seq<u8>)
      requires TermApart() && ServerOk(View(), font)
      modifies this`pty, term, TermRepr()
      ensures TermApart() && TermRepr() == old(TermRepr())
      ensures View() == OutputStep(ExitStep(old(View()), exited), output)
    {
      ReapShell(exited);
      TakeOutput(output);
    }

    /** The keyboards, then the idle timer. */
    method HearKeys(keys: seq<KeyRead>, later: int)
      requires TermApart()
      modifies this`idleSince, this`saving, this`written, decoder, term
      ensures TermApart() && TermRepr() == old(TermRepr())
      ensures View() == IdleStep(KeysStep(old(View()), keys), later)
    {
      TakeKeys(keys);
      CheckIdle(later);
    }

    /** The shell, the keyboards and the idle timer. */
    method Listen(input: Input)
      requires TermApart() && ServerOk(View(), font)
      modifies this, decoder, term, TermRepr()
      ensures TermApart() && TermRepr() == old(TermRepr())
      ensures View() ==
        IdleStep(KeysStep(OutputStep(ExitStep(old(View()), input.exited), input.output), input.keys), input.later)
    {
      HearShell(input.exited, input.output);
      HearKeys(input.keys, input.later);
    }

    /** Everything before the drawing. */
    method Step(input: Input)
      requires Valid()
      modifies Repr()
      ensures TermApart() && fresh(Repr() - old(Repr()))
      ensures View() == Advance(old(View()), input, font)
    {
      RefreshStepIsOk(View(), input, font);
      RefreshDisplay(input);
      Listen(input);
    }

    /** One turn of the main loop. */
    method Turn(input: Input)
      requires Valid() && SafeStep(View(), input, font)
      modifies Repr()
      ensures Valid() && fresh(Repr() - old(Repr()))
      ensures View() == Iterate(old(View()), input, font)
    {
      AdvanceStaysRoomy(View(), input, font);
      Step(input);
      Paint(input);
    }

    /** One turn, the next of a safe run. */
    method TurnOn(inputs: seq<Input>, i: nat, ghost states: seq<Server>)
      requires i < |inputs| && SafeTrail(states, inputs, font) && TermApart() && View() == states[i]
      modifies Repr()
      ensures TermApart() && View() == states[i + 1] && fresh(Repr() - old(Repr()))
    {
      assert SafelyAt(states, inputs, i, font);
      Turn(inputs[i]);
    }

    /** Turn after turn, through the states of a safe run. */
    method TurnAll(inputs: seq<Input>, ghost states: seq<Server>)
      requires SafeTrail(states, inputs, font) && TermApart() && View() == states[0]
      modifies Repr()
      ensures TermApart() && View() == states[|inputs|] && fresh(Repr() - old(Repr()))
    {
      var i := 0;
      while i < |inputs|
        invariant 0 <= i <= |inputs| && TermApart() && View() == states[i] && fresh(Repr() - old(Repr()))
      {
        TurnOn(inputs, i, states);
        i := i + 1;
      }
    }

    /** A run of the main loop. */
    method Turns(inputs: seq<Input>)
      requires Valid() && SafeRun(View(), inputs, font)
      modifies Repr()
      ensures Valid() && fresh(Repr() - old(Repr()))
      ensures View() == RunLoop(old(View()), inputs, font)
    {
      ghost var states := SafeStates(View(), inputs, font);
      TurnAll(inputs, states);
    }
  }
}
