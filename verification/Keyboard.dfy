/** From key events to the bytes the shell reads. */
module Keyboard {
  import opened Primitives
  import opened Control

  const EV_KEY: u16 := 1

  /** A decoded input event: value 0 is a release, 1 a press, 2 a repeat. */
  datatype KeyEvent = KeyEvent(evType: u16, code: u16, value: int)

  datatype Mods = Mods(shift: bool, ctrl: bool)

  const ROW1 := ("1234567890-=", "!@#$%^&*()_+")
  const ROW2 := ("qwertyuiop[]", "QWERTYUIOP{}")
  const ROW3 := ("asdfghjkl;'`", "ASDFGHJKL:\"~")
  const ROW4 := ("\\zxcvbnm,./", "|ZXCVBNM<>?")

  predicate Ascii(s: string) {
    forall i :: 0 <= i < |s| ==> 0x20 <= s[i] as int <= 0x7e
  }

  lemma RowsAreAscii()
    ensures |ROW1.0| == |ROW1.1| == |ROW2.0| == |ROW2.1| == |ROW3.0| == |ROW3.1| == 12
    ensures |ROW4.0| == |ROW4.1| == 11
    ensures Ascii(ROW1.0) && Ascii(ROW1.1) && Ascii(ROW2.0) && Ascii(ROW2.1)
    ensures Ascii(ROW3.0) && Ascii(ROW3.1) && Ascii(ROW4.0) && Ascii(ROW4.1)
  {
  }

  /** Small letters stand under their capitals. */
  predicate CaseMatches(lo: string, hi: string) {
    |lo| == |hi| && forall i :: 0 <= i < |lo| ==> ('a' <= lo[i] <= 'z' ==> hi[i] as int == lo[i] as int - 32)
  }

  lemma RowsMatchCase()
    ensures CaseMatches(ROW1.0, ROW1.1) && CaseMatches(ROW2.0, ROW2.1)
    ensures CaseMatches(ROW3.0, ROW3.1) && CaseMatches(ROW4.0, ROW4.1)
  {
  }

  /** The plain and shifted character of a key, in the US layout. */
  function BaseChar(code: u16): (r: Option<(u8, u8)>)
    ensures r.Some? ==> r.value.0 != ESC && r.value.1 != ESC
  {
    RowsAreAscii();
    if 2 <= code <= 13 then Some((ROW1.0[code - 2] as int, ROW1.1[code - 2] as int))
    else if code == 14 then Some((DEL, DEL))
    else if code == 15 then Some((TAB, TAB))
    else if 16 <= code <= 27 then Some((ROW2.0[code - 16] as int, ROW2.1[code - 16] as int))
    else if code == 28 || code == 96 then Some((LF, LF))
    else if 30 <= code <= 41 then Some((ROW3.0[code - 30] as int, ROW3.1[code - 30] as int))
    else if 43 <= code <= 53 then Some((ROW4.0[code - 43] as int, ROW4.1[code - 43] as int))
    else if code == 57 then Some((SPACE, SPACE))
    else None
  }

  predicate IsShift(code: u16) {
    code == 42 || code == 54
  }

  predicate IsCtrl(code: u16) {
    code == 29 || code == 97
  }

  predicate IsUpper(b: u8) {
    'A' as int <= b <= 'Z' as int
  }

  predicate IsLower(b: u8) {
    'a' as int <= b <= 'z' as int
  }

  /** The control character of a letter. */
  function CtrlOf(b: u8): u8
    requires IsUpper(b) || IsLower(b)
  {
    (if IsLower(b) then b - 32 else b) - 'A' as int + 1
  }

  /** Arrows, home, end and delete. */
  function Navigation(code: u16): seq<u8> {
    if code == 103 then [ESC, '[' as int, 'A' as int]
    else if code == 108 then [ESC, '[' as int, 'B' as int]
    else if code == 106 then [ESC, '[' as int, 'C' as int]
    else if code == 105 then [ESC, '[' as int, 'D' as int]
    else if code == 102 then [ESC, '[' as int, 'H' as int]
    else if code == 107 then [ESC, '[' as int, 'F' as int]
    else if code == 111 then [ESC, '[' as int, '3' as int, '~' as int]
    else []
  }

  function CharBytes(m: Mods, code: u16): seq<u8> {
    var base := BaseChar(code);
    if base.None? then []
    else
      var ch := if m.shift then base.value.1 else base.value.0;
      if m.ctrl && (IsUpper(ch) || IsLower(ch)) then [CtrlOf(ch)] else [ch]
  }

  lemma ShiftedLetters(code: u16)
    requires BaseChar(code).Some? && IsLower(BaseChar(code).value.0)
    ensures BaseChar(code).value.1 == BaseChar(code).value.0 - 32
  {
    RowsAreAscii();
    RowsMatchCase();
  }

  /** Shifted letters are the capitals, so with control the shift does not matter. */
  lemma LettersAndControl(code: u16)
    requires BaseChar(code).Some? && IsLower(BaseChar(code).value.0)
    ensures BaseChar(code).value.1 == BaseChar(code).value.0 - 32
    ensures CharBytes(Mods(true, true), code) == CharBytes(Mods(false, true), code)
    ensures |CharBytes(Mods(true, true), code)| == 1 && 1 <= CharBytes(Mods(true, true), code)[0] <= 26
  {
    ShiftedLetters(code);
  }

  /** One event: the new modifier state and the bytes to forward. */
  function Decode(m: Mods, ev: KeyEvent): (Mods, seq<u8>) {
    var down := ev.value != 0;
    if ev.evType != EV_KEY then (m, [])
    else if IsShift(ev.code) then (m.(shift := down), [])
    else if IsCtrl(ev.code) then (m.(ctrl := down), [])
    else if !down then (m, [])
    else if Navigation(ev.code) != [] then (m, Navigation(ev.code))
    else (m, CharBytes(m, ev.code))
  }

  class Decoder {
    var shift: bool
    var ctrl: bool

    ghost function View(): Mods
      reads this
    {
      Mods(shift, ctrl)
    }

    constructor ()
      ensures View() == Mods(false, false)
    {
      shift := false;
      ctrl := false;
    }

    method ReadEvent(ev: KeyEvent) returns (out: seq<u8>)
      modifies this
      ensures (View(), out) == Decode(old(View()), ev)
    {
      if ev.evType != EV_KEY {
        return [];
      }
      var down := ev.value != 0;
      if ev.code == 42 || ev.code == 54 {
        shift := down;
        return [];
      } else if ev.code == 29 || ev.code == 97 {
        ctrl := down;
        return [];
      }
      if !down {
        return [];
      }
      var keys := Navigation(ev.code);
      if keys != [] {
        return keys;
      }
      var base := BaseChar(ev.code);
      if base.Some? {
        var ch := if shift then base.value.1 else base.value.0;
        if ctrl && (IsUpper(ch) || IsLower(ch)) {
          return [CtrlOf(ch)];
        }
        return [ch];
      }
      return [];
    }
  }

  // ----- Whole event sequences -----

  function ModsAfter(m: Mods, evs: seq<KeyEvent>): Mods
    decreases |evs|
  {
    if evs == [] then m else ModsAfter(Decode(m, evs[0]).0, evs[1..])
  }

  /** The non-empty outputs of an event sequence, in order. */
  function Outputs(m: Mods, evs: seq<KeyEvent>): seq<seq<u8>>
    decreases |evs|
  {
    if evs == [] then []
    else
      var (m', out) := Decode(m, evs[0]);
      if out == [] then Outputs(m', evs[1..]) else [out] + Outputs(m', evs[1..])
  }

  function Concat(outs: seq<seq<u8>>): seq<u8> {
    if outs == [] then [] else outs[0] + Concat(outs[1..])
  }

  /** How long the output is that starts with these bytes. */
  function TokenLength(s: seq<u8>): nat
    requires s != []
  {
    if s[0] != ESC then 1
    else if |s| > 2 && s[2] == '3' as int then 4
    else 3
  }

  /** Cuts a byte stream back into outputs. */
  function Tokens(s: seq<u8>): seq<seq<u8>>
    decreases |s|
  {
    if s == [] then []
    else
      var n := Min(TokenLength(s), |s|);
      [s[..n]] + Tokens(s[n..])
  }

  /** An escape byte is only ever the head of one of the seven sequences. */
  predicate IsOutput(out: seq<u8>) {
    || (|out| == 1 && out[0] != ESC)
    || (exists code: u16 :: out == Navigation(code) && out != [])
  }

  lemma OutputsAreWellFormed(m: Mods, ev: KeyEvent)
    ensures Decode(m, ev).1 == [] || IsOutput(Decode(m, ev).1)
  {
  }

  lemma FirstToken(out: seq<u8>, rest: seq<u8>)
    requires IsOutput(out)
    ensures out != [] && Tokens(out + rest) == [out] + Tokens(rest)
  {
    assert TokenLength(out + rest) == |out|;
    assert (out + rest)[..|out|] == out && (out + rest)[|out|..] == rest;
  }

  /** The bytes of any event sequence cut back into exactly its non-empty outputs. */
  lemma {:induction false} OutputsAreDecodable(m: Mods, evs: seq<KeyEvent>)
    ensures Tokens(Concat(Outputs(m, evs))) == Outputs(m, evs)
    decreases |evs|
  {
    if evs != [] {
      var (m', out) := Decode(m, evs[0]);
      OutputsAreDecodable(m', evs[1..]);
      OutputsAreWellFormed(m, evs[0]);
      if out != [] {
        var outs := Outputs(m', evs[1..]);
        assert ([out] + outs)[1..] == outs;
        FirstToken(out, Concat(outs));
      }
    }
  }

  /** The last event whose key satisfies the test, if any, was not a release. */
  function LastDown(evs: seq<KeyEvent>, test: u16 -> bool, start: bool): bool {
    if evs == [] then start
    else
      var ev := evs[|evs| - 1];
      if ev.evType == EV_KEY && test(ev.code) then ev.value != 0
      else LastDown(evs[..|evs| - 1], test, start)
  }

  lemma {:induction false} ModsAppend(m: Mods, evs: seq<KeyEvent>, ev: KeyEvent)
    ensures ModsAfter(m, evs + [ev]) == Decode(ModsAfter(m, evs), ev).0
    decreases |evs|
  {
    if evs == [] {
      assert evs + [ev] == [ev];
      assert [ev][1..] == [];
    } else {
      assert (evs + [ev])[1..] == evs[1..] + [ev];
      ModsAppend(Decode(m, evs[0]).0, evs[1..], ev);
    }
  }

  /** Each modifier is the direction of its last event on either of its keys. */
  lemma {:induction false} ModsAreLastEvents(m: Mods, evs: seq<KeyEvent>)
    ensures ModsAfter(m, evs) == Mods(LastDown(evs, IsShift, m.shift), LastDown(evs, IsCtrl, m.ctrl))
    decreases |evs|
  {
    if evs != [] {
      var n := |evs| - 1;
      assert evs == evs[..n] + [evs[n]];
      ModsAreLastEvents(m, evs[..n]);
      ModsAppend(m, evs[..n], evs[n]);
    }
  }

  function Is(code: u16): u16 -> bool {
    c => c == code
  }

  /** Some key that satisfies the test is down: its own last event was not a release. */
  ghost predicate SomeHeld(evs: seq<KeyEvent>, test: u16 -> bool) {
    exists code: u16 :: test(code) && LastDown(evs, Is(code), false)
  }

  /** The last event on a key that satisfies the test. */
  function LastOn(evs: seq<KeyEvent>, test: u16 -> bool): Option<KeyEvent> {
    if evs == [] then None
    else
      var ev := evs[|evs| - 1];
      if ev.evType == EV_KEY && test(ev.code) then Some(ev) else LastOn(evs[..|evs| - 1], test)
  }

  /** The last event decides the modifier and the state of its own key. */
  lemma {:induction false} LastOnDecides(evs: seq<KeyEvent>, test: u16 -> bool, code: u16)
    requires test(code)
    ensures var last := LastOn(evs, test);
      && LastDown(evs, test, false) == (last.Some? && last.value.value != 0)
      && (last.None? ==> !LastDown(evs, Is(code), false))
      && (last.Some? ==> test(last.value.code))
      && (last.Some? && last.value.code == code ==> LastDown(evs, Is(code), false) == (last.value.value != 0))
    decreases |evs|
  {
    if evs != [] {
      LastOnDecides(evs[..|evs| - 1], test, code);
    }
  }

  /** The last event on the two keys was a release of one while the other was down. */
  predicate ReleasedOneOfTwo(evs: seq<KeyEvent>, test: u16 -> bool, a: u16, b: u16) {
    var last := LastOn(evs, test);
    last.Some? && last.value.value == 0 && LastDown(evs, Is(if last.value.code == a then b else a), false)
  }

  lemma PairMatchesHeld(evs: seq<KeyEvent>, test: u16 -> bool, a: u16, b: u16)
    requires forall c: u16 :: test(c) <==> c == a || c == b
    ensures (LastDown(evs, test, false) <==> SomeHeld(evs, test)) <==> !ReleasedOneOfTwo(evs, test, a, b)
  {
    LastOnDecides(evs, test, a);
    LastOnDecides(evs, test, b);
    var heldA, heldB := LastDown(evs, Is(a), false), LastDown(evs, Is(b), false);
    assert SomeHeld(evs, test) <==> heldA || heldB by {
      assert test(a) && test(b);
    }
  }

  /** Each modifier is on if and only if one of its keys is held, exactly unless the
      last event on its keys released one of them while the other was down. */
  lemma ModifiersMatchHeldKeys(evs: seq<KeyEvent>)
    ensures var m := ModsAfter(Mods(false, false), evs);
      && ((m.shift <==> SomeHeld(evs, IsShift)) <==> !ReleasedOneOfTwo(evs, IsShift, 42, 54))
      && ((m.ctrl <==> SomeHeld(evs, IsCtrl)) <==> !ReleasedOneOfTwo(evs, IsCtrl, 29, 97))
  {
    ModsAreLastEvents(Mods(false, false), evs);
    PairMatchesHeld(evs, IsShift, 42, 54);
    PairMatchesHeld(evs, IsCtrl, 29, 97);
  }

  /** Both shift keys pressed and the right one released. */
  const HALF_RELEASED := [KeyEvent(EV_KEY, 42, 1), KeyEvent(EV_KEY, 54, 1), KeyEvent(EV_KEY, 54, 0)]

  /** There the shift is off although the left key is still down. */
  lemma ShiftCanBeLost()
    ensures !ModsAfter(Mods(false, false), HALF_RELEASED).shift && SomeHeld(HALF_RELEASED, IsShift)
  {
    ModsAreLastEvents(Mods(false, false), HALF_RELEASED);
    var two := HALF_RELEASED[..2];
    assert two[..1] == [KeyEvent(EV_KEY, 42, 1)];
    assert LastDown(two[..1], Is(42), false);
    assert LastDown(two, Is(42), false);
    assert IsShift(42) && LastDown(HALF_RELEASED, Is(42), false);
  }
}
